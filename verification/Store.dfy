/**
 The writer's side of the store: V2 ingest and the creation of privacy requests.
 Both methods hold `v2Mu` from their first statement to their last.
 */
module Store {
  import opened Tables
  import opened Telemetry
  import opened Protocol
  import opened Invariant
  import opened Facts
  import opened History
  import opened Safety
  import opened Theorems
  import opened Exactly
  import opened Atomic
  import opened Database

  datatype InsertResult =
    | Inserted(count: nat)
    | Replay(count: nat)
    | ErrIdempotencyConflict
    | ErrDuplicateRecord
    | ErrSuppressed
    | ErrInvalidStatus
    | ErrStatement

  datatype PrivacyResult =
    | Persisted                          // status "pending"
    | AlreadyKnown(status: PrivacyStatus)
    | RequestConflict
    | RequestFailed

  /** No statement from number `i` on accepts or forgets a body. */
  ghost predicate Quiet(actions: seq<Action>, i: nat)
  {
    forall m | i <= m < |actions| :: !Accepts(actions[m]) && !Forgets(actions[m])
  }

  /** No statement of the writer from number `i` on stores a row. */
  ghost predicate Silent(actions: seq<Action>, i: nat)
  {
    forall m | i <= m < |actions| :: !Writes(actions[m])
  }

  predicate Writes(a: Action)
  {
    && a.ByWriter?
    && (a.writer.Reserve? || a.writer.SendRegistry? || a.writer.SendStream? || a.writer.CompleteBatch? || a.writer.CommitRequest?)
  }

  /** Every ledger and registry row of the newer run was there before or is of one of these bodies. */
  ghost predicate AddsOnly(run: seq<Sys>, run': seq<Sys>, bodies: set<Digest>)
  {
    run != [] && run' != [] && Brings(run[|run| - 1], run'[|run'| - 1], bodies)
  }

  ghost predicate Brings(s: Sys, s': Sys, bodies: set<Digest>)
  {
    && (forall l | l in s'.ledger :: l in s.ledger || l.data.sha in bodies)
    && (forall g | g in s'.registry :: g in s.registry || g.data.sha in bodies)
  }

  lemma OtherBringsNothing(s: Sys, a: Action, s': Sys)
    requires Next(s, a, s') && !a.ByWriter?
    ensures Brings(s, s', {})
  {
    hide WorkerEnabled, V1Enabled, Dominated, RowCovered, Without, DeleteMatches;
    match a
    case ByV1(_) =>
    case ByWorker(k) => WorkerLedger(s, k);
    case ByMerge(m) =>
      if m.MergeLedger? {
        IsIndex(s.ledger, m.i, m.j);
        WithoutKeeps(s.ledger, m.i);
      } else if m.MergeRegistry? {
        IsIndex(s.registry, m.i, m.j);
        WithoutKeeps(s.registry, m.i);
      }
    case ByMutation(m, i) => MutationBringsNothing(s, m, i);
  }

  lemma IsIndex<K, D>(table: seq<Row<K, D>>, i: nat, j: nat)
    requires Dominated(table, i, j)
    ensures i < |table|
  {
  }

  lemma MutationBringsNothing(s: Sys, mutation: nat, index: nat)
    requires MutationEnabled(s, mutation, index)
    ensures Brings(s, MutationApply(s, mutation, index), {})
  {
    hide Without, DeleteMatches;
    match TableOf(s.mutations[mutation])
    case StreamTable(_) =>
    case RegistryTable => WithoutKeeps(s.registry, index);
    case LedgerTable => WithoutKeeps(s.ledger, index);
    case _ =>
  }

  lemma {:induction false} OthersBringNothing(run: seq<Sys>, actions: seq<Action>, i: nat, j: nat)
    requires IsRun(run, actions) && i <= j < |run|
    requires forall m | i <= m < j :: !actions[m].ByWriter?
    ensures Brings(run[i], run[j], {})
    decreases j
  {
    hide IsRun, Next;
    if i < j {
      OthersBringNothing(run, actions, i, j - 1);
      StepOfRun(run, actions, j - 1);
      OtherBringsNothing(run[j - 1], actions[j - 1], run[j]);
    }
  }

  lemma OthersContinuation(run0: seq<Sys>, actions0: seq<Action>, run: seq<Sys>, actions: seq<Action>)
    requires |run0| == |actions0| + 1 && Continues(run0, actions0, run, actions) && IsRun(run, actions) && |run| == |actions| + 1
    requires forall m | |actions0| <= m < |actions| :: !actions[m].ByWriter?
    ensures forall bodies :: AddsOnly(run0, run, bodies)
  {
    hide IsRun;
    OthersBringNothing(run, actions, |actions0|, |actions|);
    assert run[|actions0|] == run[..|run0|][|actions0|];
  }

  lemma SameTables(run0: seq<Sys>, run: seq<Sys>, bodies: set<Digest>)
    requires run0 != [] && run != []
    requires run[|run| - 1].ledger == run0[|run0| - 1].ledger && run[|run| - 1].registry == run0[|run0| - 1].registry
    ensures AddsOnly(run0, run, bodies)
  {
  }

  lemma LedgerRowAdded(run0: seq<Sys>, run: seq<Sys>, sha: Digest, at: int, status: LedgerStatus, outcome: Outcome)
    requires run0 != [] && run != []
    requires run[|run| - 1].ledger == Protocol.Stored(run0[|run0| - 1].ledger, LedgerRowFor(sha, status, at), outcome)
    requires run[|run| - 1].registry == run0[|run0| - 1].registry
    ensures AddsOnly(run0, run, {sha})
  {
  }

  lemma RegistryRowsAdded(run0: seq<Sys>, run: seq<Sys>, sha: Digest, at: int, stored: seq<RegistryRow>)
    requires run0 != [] && run != [] && forall g | g in stored :: g in RegistryRows(sha, at)
    requires run[|run| - 1].ledger == run0[|run0| - 1].ledger
    requires run[|run| - 1].registry == run0[|run0| - 1].registry + stored
    ensures AddsOnly(run0, run, {sha})
  {
  }

  lemma {:induction false} QuietKeepsAccepted(run: seq<Sys>, actions: seq<Action>, i: nat, j: nat)
    requires IsRun(run, actions) && i <= j < |run| && Quiet(actions, i)
    ensures Accepted(run[j]) == Accepted(run[i])
    decreases j
  {
    hide IsRun, Accepted;
    if i < j {
      QuietKeepsAccepted(run, actions, i, j - 1);
      RunLength(run, actions);
      RefinesAtomicStore(run, actions, j - 1);
    }
  }

  lemma ContinuesOn(
    run0: seq<Sys>, actions0: seq<Action>, run1: seq<Sys>, actions1: seq<Action>, run2: seq<Sys>, actions2: seq<Action>)
    requires Continues(run0, actions0, run1, actions1) && Continues(run1, actions1, run2, actions2)
    ensures Continues(run0, actions0, run2, actions2)
    ensures Silent(actions1, |actions0|) && Silent(actions2, |actions1|) ==> Silent(actions2, |actions0|)
  {
    assert run2[..|run0|] == run2[..|run1|][..|run0|];
    assert actions2[..|actions0|] == actions2[..|actions1|][..|actions0|];
    assert forall m | |actions0| <= m < |actions1| :: actions2[m] == actions1[m];
  }

  /** The same for the ingest of one body. */
  lemma IngestContinues(
    run0: seq<Sys>, actions0: seq<Action>, run1: seq<Sys>, actions1: seq<Action>, run2: seq<Sys>, actions2: seq<Action>, sha: Digest)
    requires Continues(run0, actions0, run1, actions1) && Continues(run1, actions1, run2, actions2)
    requires AddsOnly(run0, run1, {sha}) && AddsOnly(run1, run2, {sha})
    ensures Continues(run0, actions0, run2, actions2) && AddsOnly(run0, run2, {sha})
    ensures Silent(actions1, |actions0|) && Silent(actions2, |actions1|) ==> Silent(actions2, |actions0|)
  {
    hide Continues, Silent;
    ContinuesOn(run0, actions0, run1, actions1, run2, actions2);
  }

  lemma ContinuesSame(run: seq<Sys>, actions: seq<Action>)
    ensures Continues(run, actions, run, actions)
  {
  }

  /** A quiet continuation accepts and forgets nothing. */
  lemma QuietContinuation(run0: seq<Sys>, actions0: seq<Action>, run: seq<Sys>, actions: seq<Action>)
    requires |run0| == |actions0| + 1 && Continues(run0, actions0, run, actions) && IsRun(run, actions) && |run| == |actions| + 1
    requires Quiet(actions, |actions0|)
    ensures Accepted(run[|run| - 1]) == Accepted(run0[|run0| - 1])
  {
    hide IsRun;
    QuietKeepsAccepted(run, actions, |actions0|, |actions|);
    assert run[|actions0|] == run[..|run0|][|actions0|];
  }

  /** What the FINAL row of a batch ID, or its absence, settles. */
  lemma FinalRowSettles(s: Sys, sha: Digest, found: Option<LedgerRow>)
    requires LedgerOk(s.ledger) && FinalRead(s.ledger, KeyOf(sha.batch), found)
    ensures forall d | d in Accepted(s) && KeyOf(d.batch) == KeyOf(sha.batch) ::
              found.Some? && found.value.data.sha == d && found.value.data.status == StatusCompleted
    ensures found.Some? ==> found.value.data.status != StatusOther
    ensures found.Some? && found.value.data.sha == sha && found.value.data.status == StatusCompleted ==>
              sha in Accepted(s) || DeletionRequested(s.history, sha.batch.scope)
  {
    hide DeletionRequested, ValidBatch;
    forall d | d in Accepted(s) && KeyOf(d.batch) == KeyOf(sha.batch)
      ensures found.Some? && found.value.data.sha == d && found.value.data.status == StatusCompleted
    {
      var c :| c in s.ledger && c.data.status == StatusCompleted && c.data.sha == d;
      assert LedgerRowOk(c) && c.key == KeyOf(d.batch);
      assert found.Some?;
      assert SameBatch(found.value, c) && SameBatch(c, found.value) && LedgerRowOk(found.value);
    }
    if found.Some? {
      assert LedgerRowOk(found.value);
    }
  }

  lemma LookUpRead(s: Sys, sha: Digest, found: Option<LedgerRow>, s': Sys)
    requires Next(s, ByWriter(LookUpBatch(sha, found)), s')
    ensures s'.ledger == s.ledger && FinalRead(s.ledger, KeyOf(sha.batch), found)
  {
    hide FinalRead;
  }

  /** What the ledger look-up, the newest statement of the run, has settled. */
  lemma LookUpSettles(run: seq<Sys>, actions: seq<Action>, sha: Digest, found: Option<LedgerRow>)
    requires IsRun(run, actions) && |actions| > 0 && |run| == |actions| + 1
    requires actions[|actions| - 1] == ByWriter(LookUpBatch(sha, found))
    ensures forall d | d in Accepted(run[|actions|]) && KeyOf(d.batch) == KeyOf(sha.batch) ::
              found.Some? && found.value.data.sha == d && found.value.data.status == StatusCompleted
    ensures found.Some? ==> found.value.data.status != StatusOther
    ensures found.Some? && found.value.data.sha == sha && found.value.data.status == StatusCompleted ==>
              sha in Accepted(run[|actions|]) || DeletionRequested(run[|actions|].history, sha.batch.scope)
  {
    hide IsRun, Next, LedgerOk, ChainOk, HistoryOk, ErasureOk, WritersOk, DeleterOk, Accepted, DeletionRequested, FinalRead;
    var i := |actions| - 1;
    StepOfRun(run, actions, i);
    RunInv(run, actions, i + 1);
    LookUpRead(run[i], sha, found, run[i + 1]);
    FinalRowSettles(run[i + 1], sha, found);
  }

  /** The suppression query finds a row just when a stored request covers the scope. */
  lemma HitIsSuppressed(run: seq<Sys>, actions: seq<Action>, scope: Scope, hit: Option<SuppressionRow>)
    requires IsRun(run, actions) && SuppressionRead(run[|run| - 1].suppressions, scope, hit)
    ensures hit.Some? <==> Suppressed(run[|run| - 1].history, scope)
  {
    RunInv(run, actions, |run| - 1);
    var s := run[|run| - 1];
    ReadIsSuppressed(s.history, s.suppressions, s.maxAttempts, scope, hit);
  }

  /** What is suppressed can be told from the stored rows. */
  lemma SuppressedIsCovered(run: seq<Sys>, actions: seq<Action>, scope: Scope)
    requires |run| == |actions| + 1 && IsRun(run, actions)
    ensures Suppressed(run[|run| - 1].history, scope) <==> Covered(run[|run| - 1].suppressions, scope)
  {
    hide IsRun, LedgerOk, ChainOk, HistoryOk, ErasureOk, WritersOk, DeleterOk, Suppressed, Covered;
    RunInv(run, actions, |run| - 1);
    SuppressedExactly(run[|run| - 1].history, run[|run| - 1].suppressions, run[|run| - 1].maxAttempts, scope);
  }

  /** A suppressed scope stays suppressed. */
  lemma SuppressedRemains(run0: seq<Sys>, actions0: seq<Action>, run: seq<Sys>, actions: seq<Action>, scope: Scope)
    requires |run0| == |actions0| + 1 && |run| == |actions| + 1 && Continues(run0, actions0, run, actions) && IsRun(run, actions)
    ensures Suppressed(run0[|run0| - 1].history, scope) ==> Suppressed(run[|run| - 1].history, scope)
  {
    hide IsRun;
    assert run[|actions0|] == run[..|run0|][|actions0|];
    RunRemembers(run, actions, |actions0|, |actions|);
    var h, h' := run[|actions0|].history, run[|actions|].history;
    if Suppressed(h, scope) {
      var k :| k in h && h[k] != [] && GateMatches(h[k][0].data.scope, scope);
      assert h'[k][0] == h[k][0];
    }
  }

  /** The look-up of a request answers with the row stored last for it. */
  lemma RequestLookUpSettles(run: seq<Sys>, actions: seq<Action>, key: RequestKey, found: Option<SuppressionRow>)
    requires |run| == |actions| + 1 && IsRun(run, actions) && FinalRead(run[|run| - 1].suppressions, key, found)
    ensures found.Some? <==> key in run[|run| - 1].history
    ensures found.Some? ==> IsLastStored(run[|run| - 1].history, found.value)
  {
    hide IsRun;
    FinalIsLastStored(run, actions, |run| - 1, key, found);
    if found.Some? {
      assert found.value.key == key;
    }
  }

  ghost predicate IsLastStored(history: map<RequestKey, seq<SuppressionRow>>, row: SuppressionRow)
  {
    row.key in history && history[row.key] != [] && Last(history[row.key]) == row
  }

  /** A new request counts no claim. */
  lemma CommitFits(run: seq<Sys>, actions: seq<Action>, request: NewRequest, now: int, s: Sys)
    requires |run| == |actions| + 1 && IsRun(run, actions) && run[|run| - 1].writer == Requesting(request)
    requires s.history == run[|run| - 1].history[request.key := [PendingRowFor(request, now)]]
    ensures CounterFits(s)
  {
    assert CounterFits(run[|run| - 1]);
    var row := PendingRowFor(request, now);
    assert [row][..0] == [] && Claims([row]) == 0;
  }

  lemma RequestIsNew(run: seq<Sys>, actions: seq<Action>, request: NewRequest)
    requires |run| == |actions| + 1 && IsRun(run, actions) && run[|run| - 1].writer == Requesting(request)
    ensures request.key !in run[|run| - 1].history
  {
    hide IsRun, ChainOk, HistoryOk, ErasureOk, CompletedIsWritten, V1Ok, DeleterOk;
    RunInv(run, actions, |run| - 1);
  }

  lemma PersistedSuppresses(history: map<RequestKey, seq<SuppressionRow>>, request: NewRequest, now: int)
    requires request.key in history && history[request.key] == [PendingRowFor(request, now)]
    ensures Suppressed(history, request.scope)
  {
    assert GateMatches(history[request.key][0].data.scope, request.scope);
  }

  lemma PersistedLegacySuppresses(history: map<RequestKey, seq<SuppressionRow>>, request: NewRequest)
    requires request.legacyInstallation.Some? && request.key in history
    requires exists row :: history[request.key] == [row] && IsFirstRowOf(row, request)
    ensures LegacySuppressed(history, request.legacyInstallation.value)
  {
    assert history[request.key][0].data.legacyInstallation == request.legacyInstallation;
  }

  /** What storing the request, the newest statement of the run, has done to the accepted bodies. */
  lemma CommitSettles(run: seq<Sys>, actions: seq<Action>, request: NewRequest, a: WriterAction)
    requires IsRun(run, actions) && |actions| > 0 && |run| == |actions| + 1
    requires actions[|actions| - 1] == ByWriter(a) && a.CommitRequest?
    requires run[|actions| - 1].writer == Requesting(request)
    ensures Accepted(run[|actions|]) ==
              if a.outcome != Unapplied && DeletesV2(request) then Forget(Accepted(run[|actions| - 1]), request.scope)
              else Accepted(run[|actions| - 1])
  {
    hide IsRun, Accepted;
    RefinesAtomicStore(run, actions, |actions| - 1);
  }

  /** What the completion, the newest statement of the run, has achieved. */
  lemma CompletionSettles(run: seq<Sys>, actions: seq<Action>, sha: Digest, at: int, a: WriterAction)
    requires IsRun(run, actions) && |actions| > 0 && |run| == |actions| + 1
    requires actions[|actions| - 1] == ByWriter(a) && a.CompleteBatch?
    requires run[|actions| - 1].writer == Written(sha, at)
    ensures a.outcome == Unapplied ==> Accepted(run[|actions|]) == Accepted(run[|actions| - 1])
    ensures a.outcome != Unapplied ==>
              && Fresh(Accepted(run[|actions| - 1]), sha)
              && Accepted(run[|actions|]) == Accepted(run[|actions| - 1]) + {sha}
              && forall r | r in sha.batch.records :: OnceUnderFinal(run[|actions|].streams, sha.batch, r)
  {
    hide IsRun, Accepted;
    RefinesAtomicStore(run, actions, |actions| - 1);
    if a.outcome != Unapplied {
      forall r | r in sha.batch.records
        ensures OnceUnderFinal(run[|actions|].streams, sha.batch, r)
      {
        AcceptedIsOnce(run, actions, |actions|, sha, r);
      }
    }
  }

  /** What is stored where the writer stands, in the newest state of the run. */
  lemma WriterStands(run: seq<Sys>, actions: seq<Action>, sha: Digest, at: int)
    requires IsRun(run, actions) && |run| == |actions| + 1
    ensures var s := run[|run| - 1];
            && (s.writer == Reserved(sha, at) || s.writer == Vacant(sha, at) || s.writer == Registered(sha, at) || s.writer == Written(sha, at) ==>
                  HoldsReservation(s.ledger, sha, at) && !Suppressed(s.history, sha.batch.scope))
            && (s.writer == Registered(sha, at) || s.writer == Written(sha, at) ==>
                  NoClash(s.registry, sha) && AllRegistered(s.registry, sha.batch))
            && (s.writer == Written(sha, at) ==> AllWritten(s.streams, sha.batch))
  {
    hide IsRun, ChainOk, HistoryOk, ErasureOk, CompletedIsWritten, V1Ok, DeleterOk, HoldsReservation, AllRegistered,
         AllWritten, Suppressed;
    RunInv(run, actions, |run| - 1);
  }

  /** The state the registry query leads to. */
  lemma AsksRegistry(s: Sys, sha: Digest, at: int, clash: Option<RegistryRow>, s': Sys)
    requires s.writer == Reserved(sha, at)
    requires match clash
             case Some(r) => r in s.registry && Clashes(r, sha)
             case None => forall r | r in s.registry :: !Clashes(r, sha)
    requires s' == s.(writer := if clash.None? then Vacant(sha, at) else Idle)
    ensures Next(s, ByWriter(WriterAction.QueryRegistry(clash)), s')
  {
    hide Clashes;
  }

  /** The state the reservation leads to, however the statement ends. */
  lemma Reserves(s: Sys, sha: Digest, now: int, outcome: Outcome, s': Sys)
    requires s.writer == Cleared(sha)
    requires s' == s.(ledger := Protocol.Stored(s.ledger, LedgerRowFor(sha, StatusReserved, now), outcome),
                      writer := if outcome == Acked then Reserved(sha, now) else Idle)
    ensures Next(s, ByWriter(Reserve(now, outcome)), s')
  {
  }

  lemma Completes(s: Sys, sha: Digest, at: int, now: int, outcome: Outcome, s': Sys)
    requires s.writer == Written(sha, at)
    requires s' == s.(ledger := Protocol.Stored(s.ledger, LedgerRowFor(sha, StatusCompleted, CompletionTime(now, at)), outcome),
                      writer := Idle)
    ensures Next(s, ByWriter(WriterAction.CompleteBatch(now, outcome)), s')
  {
  }

  lemma Commits(s: Sys, request: NewRequest, now: int, outcome: Outcome, s': Sys)
    requires s.writer == Requesting(request) && request.key !in s.history
    requires s' == if outcome == Unapplied then s.(writer := Idle)
                   else s.(suppressions := s.suppressions + [PendingRowFor(request, now)],
                           history := s.history[request.key := [PendingRowFor(request, now)]], writer := Idle)
    ensures Next(s, ByWriter(WriterAction.CommitRequest(now, outcome)), s')
  {
    assert [] + [PendingRowFor(request, now)] == [PendingRowFor(request, now)];
  }

  /** The state a send of the batch's registry rows leads to, whatever part of them arrives. */
  lemma SendsRegistry(s: Sys, sha: Digest, at: int, stored: seq<RegistryRow>, outcome: Outcome, s': Sys)
    requires s.writer == Vacant(sha, at) && Sent(RegistryRows(sha, at), stored, outcome)
    requires s' == s.(registry := s.registry + stored, writer := if outcome == Acked then Registered(sha, at) else Idle)
    ensures Next(s, ByWriter(WriterAction.SendRegistry(stored, outcome)), s')
  {
    hide Sent;
  }

  /** The same for the stream table. */
  lemma SendsStream(s: Sys, sha: Digest, at: int, stored: seq<StreamRow>, outcome: Outcome, s': Sys)
    requires s.writer == Registered(sha, at) && Sent(StreamRows(sha.batch, at), stored, outcome)
    requires s' == s.(streams := s.streams + stored, writer := if outcome == Acked then Written(sha, at) else Idle)
    ensures Next(s, ByWriter(SendStream(stored, outcome)), s')
  {
    hide Sent;
  }

  /** The rows sent for a batch, column by column. */
  lemma RegistryRowsSay(sha: Digest, at: int)
    ensures forall g | g in RegistryRows(sha, at) :: g.version == at && g.data.sha == sha && RegistersRecord(g)
  {
    forall g | g in RegistryRows(sha, at)
      ensures g.version == at && g.data.sha == sha && RegistersRecord(g)
    {
      var i :| 0 <= i < |sha.batch.records| && RegistryRows(sha, at)[i] == g;
      assert sha.batch.records[i] in sha.batch.records;
    }
  }

  lemma StreamRowsSay(batch: Batch, at: int)
    ensures forall r | r in StreamRows(batch, at) :: r.version == at && StoresRecord(r, batch)
  {
    forall r | r in StreamRows(batch, at)
      ensures r.version == at && StoresRecord(r, batch)
    {
      var i :| 0 <= i < |batch.records| && StreamRows(batch, at)[i] == r;
      assert batch.records[i] in batch.records;
    }
  }

  /** A record ID of the batch is registered for another body, which the ledger knows. */
  ghost predicate OwnedElsewhere(registry: seq<RegistryRow>, ledger: seq<LedgerRow>, sha: Digest)
  {
    exists g :: && g in registry && Clashes(g, sha) && g.data.sha != sha
                && HasRecord(sha.batch, g.key.record) && HasRecord(g.data.sha.batch, g.key.record)
                && HasLedgerRow(ledger, g.key.product, g.data.batch, g.data.sha)
  }

  lemma ClashIsOwned(run: seq<Sys>, actions: seq<Action>, sha: Digest, g: RegistryRow)
    requires IsRun(run, actions) && |run| == |actions| + 1 && g in run[|run| - 1].registry && Clashes(g, sha)
    ensures OwnedElsewhere(run[|run| - 1].registry, run[|run| - 1].ledger, sha)
  {
    hide IsRun, HistoryOk, ErasureOk, WritersOk, DeleterOk, HasLedgerRow, ValidBatch;
    RunInv(run, actions, |run| - 1);
    assert RegistryRowOk(g);
  }

  /** A first row for the request: it repeats all the request says, is pending and active, was never claimed, and is due at once. */
  predicate IsFirstRowOf(row: SuppressionRow, request: NewRequest)
  {
    && row.key == request.key
    && row.data.sha == request.sha && row.data.scope == request.scope && row.data.action == request.action
    && row.data.requestedAt == request.requestedAt && row.data.legacyInstallation == request.legacyInstallation
    && row.data.status == Pending && row.data.active && row.data.attempts == 0 && row.data.leaseUntil.None?
    && row.data.availableAt == row.data.ingestedAt == row.version
  }

  /** The request's row is new, and the only one stored for it. */
  ghost predicate NewlyStored(
    before: map<RequestKey, seq<SuppressionRow>>, after: map<RequestKey, seq<SuppressionRow>>, suppressions: seq<SuppressionRow>,
    request: NewRequest)
  {
    && request.key !in before && request.key in after
    && exists row :: after[request.key] == [row] && row in suppressions && IsFirstRowOf(row, request)
  }

  /** Any stored row of a request tells how the same key is answered: by its digest. */
  ghost predicate AnsweredByDigest(suppressions: seq<SuppressionRow>, key: RequestKey, sha: string, result: PrivacyResult)
  {
    forall row | row in suppressions && row.key == key ::
      result.RequestFailed? || if row.data.sha == sha then result.AlreadyKnown? else result.RequestConflict?
  }

  /** Some stored row of the key has this digest. */
  ghost predicate StoredAs(suppressions: seq<SuppressionRow>, key: RequestKey, sha: string)
  {
    exists row :: row in suppressions && row.key == key && row.data.sha == sha
  }

  /** All rows of a request have the digest of the last one. */
  lemma DigestsAgree(run: seq<Sys>, actions: seq<Action>, row: SuppressionRow)
    requires |run| == |actions| + 1 && IsRun(run, actions) && row in run[|run| - 1].suppressions
    ensures var h := run[|run| - 1].history;
            row.key in h && h[row.key] != [] && Last(h[row.key]).data.sha == row.data.sha
  {
    hide IsRun, LedgerOk, ChainOk, HistoryOk, ErasureOk, WritersOk, DeleterOk;
    RunInv(run, actions, |run| - 1);
    var s := run[|run| - 1];
    RowInHistory(s.history, s.suppressions, s.maxAttempts, row);
    LastIsFound(s.history, s.suppressions, s.maxAttempts, row.key);
  }

  /** FINAL answers with a stored row. */
  lemma LastIsStoredAs(run: seq<Sys>, actions: seq<Action>, row: SuppressionRow)
    requires |run| == |actions| + 1 && IsRun(run, actions) && IsLastStored(run[|run| - 1].history, row)
    ensures StoredAs(run[|run| - 1].suppressions, row.key, row.data.sha)
  {
    hide IsRun, LedgerOk, ChainOk, HistoryOk, ErasureOk, WritersOk, DeleterOk;
    RunInv(run, actions, |run| - 1);
    var s := run[|run| - 1];
    LastIsFound(s.history, s.suppressions, s.maxAttempts, row.key);
  }

  /** A stored request is still stored later, with its digest. */
  lemma StillStored(run0: seq<Sys>, actions0: seq<Action>, run: seq<Sys>, actions: seq<Action>, key: RequestKey, sha: string)
    requires |run0| == |actions0| + 1 && |run| == |actions| + 1 && Continues(run0, actions0, run, actions) && IsRun(run, actions)
    requires StoredAs(run0[|run0| - 1].suppressions, key, sha)
    ensures StoredAs(run[|run| - 1].suppressions, key, sha)
  {
    hide IsRun;
    assert run[|actions0|] == run[..|run0|][|actions0|];
    var row :| row in run0[|run0| - 1].suppressions && row.key == key && row.data.sha == sha;
    var last := RequestIsKept(run, actions, |actions0|, |actions|, row);
  }

  /** The row stored last for the request's ID decides the answer: a conflict just when it has another digest, else its status. */
  ghost predicate AnsweredBy(history: map<RequestKey, seq<SuppressionRow>>, key: RequestKey, sha: string, result: PrivacyResult)
  {
    exists row :: && IsLastStored(history, row) && row.key == key
                  && (row.data.sha != sha <==> result.RequestConflict?)
                  && (result.AlreadyKnown? ==> row.data.status == result.status)
  }

  const LINKA_PLAYS := "linka-plays"
  const LINKA_PLAYS_KEY := "a0f1ccdc0e30ce4f267cb358ab74be5ce227f04c744d81fbaf2e2ac59893e37c"

  /** The request that stands for deleting the V1 telemetry of an installation. */
  function LegacyRequest(id: string, subject: string, installation: string, sha: string, requestedAt: int): NewRequest
  {
    NewRequest(RequestKey(LINKA_PLAYS, id), Scope(LINKA_PLAYS, LINKA_PLAYS_KEY, subject, Option.None, Option.None), Delete, sha,
               requestedAt, Option.Some(installation))
  }

  class Store {
    const db: Connection

    /** The hex SHA-256 that stands for a legacy installation as a subject. */
    const subjectOf: string -> string

    constructor (db: Connection, subjectOf: string -> string)
      ensures this.db == db && this.subjectOf == subjectOf
    {
      this.db, this.subjectOf := db, subjectOf;
    }

    lemma StandsStill(sha: Digest)
      requires db.Valid()
      ensures Continues(db.run, db.actions, db.run, db.actions) && AddsOnly(db.run, db.run, {sha})
    {
      hide IsRun;
      SameTables(db.run, db.run, {sha});
    }

    /** Between two statements the rest of the system runs on. */
    method Pause()
      requires db.Valid()
      modifies db
      ensures db.Valid() && db.writer == old(db.writer)
      ensures Continues(old(db.run), old(db.actions), db.run, db.actions)
      ensures Accepted(db.State()) == Accepted(old(db.State())) && Silent(db.actions, |old(db.actions)|)
      ensures forall bodies :: AddsOnly(old(db.run), db.run, bodies)
    {
      hide Init, Next, Accepted, AddsOnly;
      db.OthersRun();
      OthersContinuation(old(db.run), old(db.actions), db.run, db.actions);
      QuietContinuation(old(db.run), old(db.actions), db.run, db.actions);
    }

    /** The FINAL ledger row of a batch; `ok` is false when the query fails. */
    method BatchLedger(sha: Digest) returns (ok: bool, found: Option<LedgerRow>)
      requires db.Valid() && db.writer == Idle && ValidBatch(sha.batch)
      modifies db`writer, db`run, db`actions
      ensures db.Valid()
      ensures Continues(old(db.run), old(db.actions), db.run, db.actions)
      ensures AddsOnly(old(db.run), db.run, {sha})
      ensures Accepted(db.State()) == Accepted(old(db.State())) && Silent(db.actions, |old(db.actions)|)
      ensures !ok ==> db.writer == Idle
      ensures ok ==> db.writer == AfterLookUp(sha, found)
      ensures ok && found.Some? ==> found.value in db.ledger && found.value.key == KeyOf(sha.batch)
      ensures ok && found.Some? ==> found.value.data.status != StatusOther
      ensures ok ==> forall d | d in Accepted(db.State()) && KeyOf(d.batch) == KeyOf(sha.batch) ::
                       found.Some? && found.value.data.sha == d && found.value.data.status == StatusCompleted
      ensures ok && found.Some? && found.value.data.sha == sha && found.value.data.status == StatusCompleted ==>
                sha in Accepted(db.State()) || DeletionRequested(db.history, sha.batch.scope)
      ensures db.reliable ==> ok
    {
      hide IsRun, CounterFits, AtomicStep, Inv, Accepted, ValidBatch, AddsOnly;
      ok := Reaches(db.reliable);
      found := Option.None;
      if ok {
        found := SelectFinal(db.ledger, KeyOf(sha.batch));
        db.writer := AfterLookUp(sha, found);
        db.Record(ByWriter(LookUpBatch(sha, found)));
        LookUpSettles(db.run, db.actions, sha, found);
      }
      SameTables(old(db.run), db.run, {sha});
    }

    /** Gives up: the deferred unlock of `v2Mu` on an error path. */
    ghost method Abandon()
      requires db.Valid()
      modifies db`writer, db`run, db`actions
      ensures db.Valid() && db.writer == Idle
      ensures Continues(old(db.run), old(db.actions), db.run, db.actions)
      ensures Accepted(db.State()) == Accepted(old(db.State())) && Silent(db.actions, |old(db.actions)|)
    {
      hide IsRun, CounterFits, AtomicStep, Inv, Accepted;
      db.writer := Idle;
      db.Record(ByWriter(StopWriter));
    }

    /** Counts the active FINAL suppression rows that cover the scope. */
    method IsSuppressed(sha: Digest, ghost reserved: Option<int>) returns (ok: bool, suppressed: bool)
      requires db.Valid() && db.writer == Looked(sha, reserved)
      modifies db`writer, db`run, db`actions
      ensures db.Valid()
      ensures Continues(old(db.run), old(db.actions), db.run, db.actions)
      ensures AddsOnly(old(db.run), db.run, {sha})
      ensures Accepted(db.State()) == Accepted(old(db.State())) && Silent(db.actions, |old(db.actions)|)
      ensures ok ==> (suppressed <==> Suppressed(db.history, sha.batch.scope))
      ensures ok ==> (suppressed <==> Covered(db.suppressions, sha.batch.scope))
      ensures db.writer == if !ok || suppressed then Idle else if reserved.Some? then Reserved(sha, reserved.value) else Cleared(sha)
      ensures db.reliable ==> ok
    {
      hide IsRun, CounterFits, AtomicStep, Inv, Accepted, AddsOnly, Covered, Suppressed;
      ok := Reaches(db.reliable);
      suppressed := false;
      if !ok {
        Abandon();
        SameTables(old(db.run), db.run, {sha});
        return;
      }
      var count, hit := CountSuppressions(db.suppressions, sha.batch.scope);
      suppressed := count > 0;
      db.writer := AfterCheck(Looked(sha, reserved), hit);
      db.Record(ByWriter(CheckSuppressed(hit)));
      HitIsSuppressed(db.run, db.actions, sha.batch.scope, hit);
      SuppressedIsCovered(db.run, db.actions, sha.batch.scope);
      SameTables(old(db.run), db.run, {sha});
    }

    /** One ledger row, reserved or completed. */
    method InsertBatchLedger(sha: Digest, at: int, status: LedgerStatus) returns (outcome: Outcome)
      modifies db`ledger
      ensures db.ledger == Protocol.Stored(old(db.ledger), LedgerRowFor(sha, status, at), outcome)
      ensures db.reliable ==> outcome == Acked
    {
      outcome := AnyOutcome(db.reliable);
      if outcome != Unapplied {
        db.ledger := db.ledger + [LedgerRowFor(sha, status, at)];
      }
    }

    method ReserveBatch(sha: Digest, now: int) returns (outcome: Outcome)
      requires db.Valid() && db.writer == Cleared(sha)
      modifies db`writer, db`run, db`actions, db`ledger
      ensures db.Valid()
      ensures Continues(old(db.run), old(db.actions), db.run, db.actions)
      ensures AddsOnly(old(db.run), db.run, {sha})
      ensures Accepted(db.State()) == Accepted(old(db.State()))
      ensures db.writer == if outcome == Acked then Reserved(sha, now) else Idle
      ensures outcome == Acked ==> HoldsReservation(db.ledger, sha, now)
      ensures db.reliable ==> outcome == Acked
    {
      hide IsRun, Next, CounterFits, AtomicStep, Inv, Accepted, HoldsReservation, AddsOnly;
      outcome := InsertBatchLedger(sha, now, StatusReserved);
      db.writer := if outcome == Acked then Reserved(sha, now) else Idle;
      Reserves(old(db.State()), sha, now, outcome, db.State());
      db.Record(ByWriter(Reserve(now, outcome)));
      WriterStands(db.run, db.actions, sha, now);
      LedgerRowAdded(old(db.run), db.run, sha, now, StatusReserved, outcome);
    }

    method CompleteBatch(sha: Digest, now: int, ghost at: int, completedAt: int) returns (outcome: Outcome)
      requires db.Valid() && db.writer == Written(sha, at) && completedAt == CompletionTime(now, at)
      modifies db`writer, db`run, db`actions, db`ledger
      ensures db.Valid() && db.writer == Idle
      ensures Continues(old(db.run), old(db.actions), db.run, db.actions)
      ensures AddsOnly(old(db.run), db.run, {sha})
      ensures outcome == Unapplied ==> Accepted(db.State()) == Accepted(old(db.State()))
      ensures outcome != Unapplied ==>
                && Fresh(Accepted(old(db.State())), sha)
                && Accepted(db.State()) == Accepted(old(db.State())) + {sha}
                && forall r | r in sha.batch.records :: OnceUnderFinal(db.streams, sha.batch, r)
      ensures db.reliable ==> outcome == Acked
    {
      hide IsRun, Next, CounterFits, AtomicStep, Inv, Accepted, AddsOnly;
      outcome := InsertBatchLedger(sha, completedAt, StatusCompleted);
      db.writer := Idle;
      Completes(old(db.State()), sha, at, now, outcome, db.State());
      db.Record(ByWriter(WriterAction.CompleteBatch(now, outcome)));
      CompletionSettles(db.run, db.actions, sha, at, WriterAction.CompleteBatch(now, outcome));
      LedgerRowAdded(old(db.run), db.run, sha, completedAt, StatusCompleted, outcome);
    }

    /** The stream table's rows, prepared one by one and sent together. */
    method InsertStream(sha: Digest, at: int) returns (outcome: Outcome)
      requires db.Valid() && db.writer == Registered(sha, at)
      modifies db`writer, db`run, db`actions, db`streams
      ensures db.Valid()
      ensures Continues(old(db.run), old(db.actions), db.run, db.actions)
      ensures AddsOnly(old(db.run), db.run, {sha})
      ensures Accepted(db.State()) == Accepted(old(db.State()))
      ensures db.writer == if outcome == Acked then Written(sha, at) else Idle
      ensures outcome == Acked ==> AllWritten(db.streams, sha.batch) && AllRegistered(db.registry, sha.batch)
      ensures forall r | r in db.streams :: r in old(db.streams) || (r.version == at && StoresRecord(r, sha.batch))
      ensures db.reliable ==> outcome == Acked
    {
      hide IsRun, Next, CounterFits, AtomicStep, Inv, Accepted, AllWritten, AllRegistered, HoldsReservation, NoClash, AddsOnly, StoresRecord;
      var prepared: seq<StreamRow> := [];
      for i := 0 to |sha.batch.records|
        invariant prepared == StreamRows(sha.batch, at)[..i]
      {
        prepared := prepared + [StreamRowFor(sha.batch, sha.batch.records[i], at)];
      }
      var stored;
      stored, outcome := Send(prepared, db.reliable);
      db.streams := db.streams + stored;
      db.writer := if outcome == Acked then Written(sha, at) else Idle;
      SendsStream(old(db.State()), sha, at, stored, outcome, db.State());
      db.Record(ByWriter(SendStream(stored, outcome)));
      WriterStands(db.run, db.actions, sha, at);
      SameTables(old(db.run), db.run, {sha});
      StreamRowsSay(sha.batch, at);
    }

    /** Looks for a record ID that another batch or body owns. */
    method QueryRegistry(sha: Digest, ghost at: int) returns (ok: bool, clash: Option<RegistryRow>)
      requires db.Valid() && db.writer == Reserved(sha, at)
      modifies db`writer, db`run, db`actions
      ensures db.Valid()
      ensures Continues(old(db.run), old(db.actions), db.run, db.actions)
      ensures AddsOnly(old(db.run), db.run, {sha})
      ensures Accepted(db.State()) == Accepted(old(db.State()))
      ensures db.writer == if ok && clash.None? then Vacant(sha, at) else Idle
      ensures ok && clash.Some? ==> clash.value in db.registry && Clashes(clash.value, sha)
      ensures ok && clash.Some? ==> OwnedElsewhere(db.registry, db.ledger, sha)
      ensures db.reliable ==> ok
    {
      hide IsRun, Next, CounterFits, AtomicStep, Inv, Accepted, Clashes, OwnedElsewhere, AddsOnly;
      clash := Option.None;
      ok := Reaches(db.reliable);
      if !ok {
        Abandon();
        SameTables(old(db.run), db.run, {sha});
        return;
      }
      clash := FindClash(db.registry, sha);
      db.writer := if clash.None? then Vacant(sha, at) else Idle;
      AsksRegistry(old(db.State()), sha, at, clash, db.State());
      db.Record(ByWriter(WriterAction.QueryRegistry(clash)));
      if clash.Some? {
        ClashIsOwned(db.run, db.actions, sha, clash.value);
      }
      SameTables(old(db.run), db.run, {sha});
    }

    method SendRegistry(sha: Digest, at: int) returns (outcome: Outcome)
      requires db.Valid() && db.writer == Vacant(sha, at)
      modifies db`writer, db`run, db`actions, db`registry
      ensures db.Valid()
      ensures Continues(old(db.run), old(db.actions), db.run, db.actions)
      ensures AddsOnly(old(db.run), db.run, {sha})
      ensures Accepted(db.State()) == Accepted(old(db.State()))
      ensures db.writer == if outcome == Acked then Registered(sha, at) else Idle
      ensures outcome == Acked ==> AllRegistered(db.registry, sha.batch) && NoClash(db.registry, sha)
      ensures forall g | g in db.registry :: g in old(db.registry) || (g.version == at && g.data.sha == sha && RegistersRecord(g))
      ensures db.reliable ==> outcome == Acked
    {
      hide IsRun, Next, CounterFits, AtomicStep, Inv, Accepted, AllRegistered, HoldsReservation, NoClash, AddsOnly, RegistersRecord;
      var prepared: seq<RegistryRow> := [];
      for i := 0 to |sha.batch.records|
        invariant prepared == RegistryRows(sha, at)[..i]
      {
        prepared := prepared + [RegistryRowFor(sha, sha.batch.records[i].id, at)];
      }
      var stored;
      stored, outcome := Send(prepared, db.reliable);
      db.registry := db.registry + stored;
      db.writer := if outcome == Acked then Registered(sha, at) else Idle;
      SendsRegistry(old(db.State()), sha, at, stored, outcome, db.State());
      db.Record(ByWriter(WriterAction.SendRegistry(stored, outcome)));
      WriterStands(db.run, db.actions, sha, at);
      RegistryRowsAdded(old(db.run), db.run, sha, at, stored);
      RegistryRowsSay(sha, at);
    }

    method PauseAndCheck(sha: Digest, ghost reserved: Option<int>) returns (ok: bool, suppressed: bool)
      requires db.Valid() && db.writer == Looked(sha, reserved)
      modifies db
      ensures db.Valid()
      ensures Continues(old(db.run), old(db.actions), db.run, db.actions)
      ensures AddsOnly(old(db.run), db.run, {sha})
      ensures Accepted(db.State()) == Accepted(old(db.State())) && Silent(db.actions, |old(db.actions)|)
      ensures ok ==> (suppressed <==> Suppressed(db.history, sha.batch.scope))
      ensures ok ==> (suppressed <==> Covered(db.suppressions, sha.batch.scope))
      ensures db.writer == if !ok || suppressed then Idle else if reserved.Some? then Reserved(sha, reserved.value) else Cleared(sha)
      ensures db.reliable ==> ok
    {
      hide *;
      Pause();
      ghost var run1, actions1 := db.run, db.actions;
      ok, suppressed := IsSuppressed(sha, reserved);
      IngestContinues(old(db.run), old(db.actions), run1, actions1, db.run, db.actions, sha);
    }

    /** The writing half of `InsertV2`: reservation, registry, stream, completion. */
    method WriteBatch(sha: Digest, reserved: Option<int>) returns (result: InsertResult)
      requires db.Valid()
      requires db.writer == if reserved.Some? then Reserved(sha, reserved.value) else Cleared(sha)
      modifies db
      ensures db.Valid() && db.writer == Idle && Continues(old(db.run), old(db.actions), db.run, db.actions)
      ensures AddsOnly(old(db.run), db.run, {sha})
      ensures result.Inserted? || result.ErrDuplicateRecord? || result.ErrStatement?
      ensures result.Inserted? ==> result.count == |sha.batch.records|
      ensures result.Inserted? ==> Fresh(Accepted(old(db.State())), sha)
      ensures result.Inserted? ==> Accepted(db.State()) == Accepted(old(db.State())) + {sha}
      ensures result.Inserted? ==> forall r | r in sha.batch.records :: OnceUnderFinal(db.streams, sha.batch, r)
      ensures result.ErrStatement? ==>
                || Accepted(db.State()) == Accepted(old(db.State()))
                || (Fresh(Accepted(old(db.State())), sha) && Accepted(db.State()) == Accepted(old(db.State())) + {sha})
      ensures result.ErrDuplicateRecord? ==> Accepted(db.State()) == Accepted(old(db.State()))
      ensures result.ErrDuplicateRecord? ==> OwnedElsewhere(db.registry, db.ledger, sha)
      ensures db.reliable ==> !result.ErrStatement?
    {
      hide *;
      ghost var run0, actions0 := db.run, db.actions;
      result := ErrStatement;
      var ingestedAt;
      if reserved.Some? {
        ingestedAt := reserved.value;
        StandsStill(sha);
      } else {
        ingestedAt := Now();
        Pause();
        ghost var run1, actions1 := db.run, db.actions;
        var outcome := ReserveBatch(sha, ingestedAt);
        IngestContinues(run0, actions0, run1, actions1, db.run, db.actions, sha);
        if outcome != Acked {
          return;
        }
      }
      ghost var run1, actions1 := db.run, db.actions;
      result := RegisterRecords(sha, ingestedAt);
      IngestContinues(run0, actions0, run1, actions1, db.run, db.actions, sha);
      if !result.Inserted? {
        return;
      }
      run1, actions1 := db.run, db.actions;
      result := InsertAndComplete(sha, ingestedAt);
      IngestContinues(run0, actions0, run1, actions1, db.run, db.actions, sha);
    }

    /** Claims the record IDs of the batch, unless another batch or body owns one. */
    method RegisterRecords(sha: Digest, at: int) returns (result: InsertResult)
      requires db.Valid() && db.writer == Reserved(sha, at)
      modifies db
      ensures db.Valid() && Continues(old(db.run), old(db.actions), db.run, db.actions)
      ensures AddsOnly(old(db.run), db.run, {sha})
      ensures Accepted(db.State()) == Accepted(old(db.State()))
      ensures result.Inserted? || result.ErrDuplicateRecord? || result.ErrStatement?
      ensures db.writer == if result.Inserted? then Registered(sha, at) else Idle
      ensures result.Inserted? ==> AllRegistered(db.registry, sha.batch) && NoClash(db.registry, sha)
      ensures result.ErrDuplicateRecord? ==> OwnedElsewhere(db.registry, db.ledger, sha)
      ensures db.reliable ==> !result.ErrStatement?
    {
      hide *;
      ghost var run0, actions0 := db.run, db.actions;
      Pause();
      ghost var run1, actions1 := db.run, db.actions;
      var ok, clash := QueryRegistry(sha, at);
      IngestContinues(run0, actions0, run1, actions1, db.run, db.actions, sha);
      if !ok {
        return ErrStatement;
      }
      if clash.Some? {
        return ErrDuplicateRecord;
      }
      run1, actions1 := db.run, db.actions;
      Pause();
      IngestContinues(run0, actions0, run1, actions1, db.run, db.actions, sha);
      run1, actions1 := db.run, db.actions;
      var outcome := SendRegistry(sha, at);
      IngestContinues(run0, actions0, run1, actions1, db.run, db.actions, sha);
      result := if outcome == Acked then Inserted(|sha.batch.records|) else ErrStatement;
    }

    method InsertAndComplete(sha: Digest, at: int) returns (result: InsertResult)
      requires db.Valid() && db.writer == Registered(sha, at)
      modifies db
      ensures db.Valid() && db.writer == Idle && Continues(old(db.run), old(db.actions), db.run, db.actions)
      ensures AddsOnly(old(db.run), db.run, {sha})
      ensures result.ErrStatement? || result == Inserted(|sha.batch.records|)
      ensures result.Inserted? ==> Fresh(Accepted(old(db.State())), sha)
      ensures result.Inserted? ==> Accepted(db.State()) == Accepted(old(db.State())) + {sha}
      ensures result.Inserted? ==> forall r | r in sha.batch.records :: OnceUnderFinal(db.streams, sha.batch, r)
      ensures result.ErrStatement? ==>
                || Accepted(db.State()) == Accepted(old(db.State()))
                || (Fresh(Accepted(old(db.State())), sha) && Accepted(db.State()) == Accepted(old(db.State())) + {sha})
      ensures db.reliable ==> !result.ErrStatement?
    {
      hide Init, Next, CounterFits, Continues, Silent, Accepted, Fresh, AddsOnly;
      ghost var run0, actions0 := db.run, db.actions;
      result := ErrStatement;
      Pause();
      ghost var run1, actions1 := db.run, db.actions;
      var outcome := InsertStream(sha, at);
      IngestContinues(run0, actions0, run1, actions1, db.run, db.actions, sha);
      if outcome != Acked {
        return;
      }
      run1, actions1 := db.run, db.actions;
      Pause();
      IngestContinues(run0, actions0, run1, actions1, db.run, db.actions, sha);
      var now := Now();
      var completedAt := now;
      if completedAt <= at {
        completedAt := at + 1;
      }
      run1, actions1 := db.run, db.actions;
      outcome := CompleteBatch(sha, now, at, completedAt);
      IngestContinues(run0, actions0, run1, actions1, db.run, db.actions, sha);
      if outcome == Acked {
        result := Inserted(|sha.batch.records|);
      }
    }

    /**
     Ingests a batch.  Told as an operation of the atomic store: it accepts the
     body whole, or leaves the accepted bodies alone; every answer is the one
     the accepted bodies dictate.
     */
    method InsertV2(sha: Digest) returns (result: InsertResult)
      requires db.Valid() && db.writer == Idle && ValidBatch(sha.batch)
      modifies db
      ensures db.Valid() && db.writer == Idle && Continues(old(db.run), old(db.actions), db.run, db.actions)
      ensures AddsOnly(old(db.run), db.run, {sha})
      ensures result.Inserted? ==> result.count == |sha.batch.records|
      ensures result.Inserted? ==> Fresh(Accepted(old(db.State())), sha)
      ensures result.Inserted? ==> Accepted(db.State()) == Accepted(old(db.State())) + {sha}
      ensures result.Inserted? ==> forall r | r in sha.batch.records :: OnceUnderFinal(db.streams, sha.batch, r)
      ensures result.ErrStatement? ==>
                || Accepted(db.State()) == Accepted(old(db.State()))
                || (Fresh(Accepted(old(db.State())), sha) && Accepted(db.State()) == Accepted(old(db.State())) + {sha})
      ensures !result.Inserted? && !result.ErrStatement? ==> Accepted(db.State()) == Accepted(old(db.State()))
      ensures result.Replay? ==> result.count == |sha.batch.records|
      ensures result.Replay? ==> sha in Accepted(old(db.State())) || DeletionRequested(db.history, sha.batch.scope)
      ensures result.ErrIdempotencyConflict? ==> exists l :: l in db.ledger && l.key == KeyOf(sha.batch) && l.data.sha != sha
      ensures result.ErrDuplicateRecord? ==> OwnedElsewhere(db.registry, db.ledger, sha)
      ensures result.ErrSuppressed? ==> Suppressed(db.history, sha.batch.scope) && Covered(db.suppressions, sha.batch.scope)
      ensures Covered(old(db.suppressions), sha.batch.scope) ==> !result.Inserted? && !result.ErrDuplicateRecord?
      ensures result.Replay? || result.ErrIdempotencyConflict? || result.ErrSuppressed? ==> Silent(db.actions, |old(db.actions)|)
      ensures sha in Accepted(old(db.State())) ==> (result.Replay? || result.ErrStatement?) && Silent(db.actions, |old(db.actions)|)
      ensures (exists d :: d in Accepted(old(db.State())) && KeyOf(d.batch) == KeyOf(sha.batch) && d != sha) ==>
                result.ErrIdempotencyConflict? || result.ErrStatement?
      ensures !result.ErrInvalidStatus?
      ensures db.reliable ==> !result.ErrStatement?
    {
      hide IsRun, Continues, Silent, Accepted, Fresh, DeletionRequested, Suppressed, OwnedElsewhere, AddsOnly, Covered;
      ghost var run0, actions0 := db.run, db.actions;
      result := ErrStatement;
      Pause();
      ghost var run1, actions1 := db.run, db.actions;
      var ok, found := BatchLedger(sha);
      IngestContinues(run0, actions0, run1, actions1, db.run, db.actions, sha);
      if !ok {
        return;
      }
      if found.Some? {
        if found.value.data.sha != sha {
          return ErrIdempotencyConflict;
        }
        if found.value.data.status == StatusCompleted {
          return Replay(|sha.batch.records|);
        }
        if found.value.data.status != StatusReserved {
          return ErrInvalidStatus;
        }
      }
      run1, actions1 := db.run, db.actions;
      var suppressed: bool;
      ok, suppressed := PauseAndCheck(sha, if found.Some? then Option.Some(found.value.version) else Option.None);
      IngestContinues(run0, actions0, run1, actions1, db.run, db.actions, sha);
      if !ok {
        return;
      }
      if suppressed {
        return ErrSuppressed;
      }
      SuppressedIsCovered(run0, actions0, sha.batch.scope);
      SuppressedRemains(run0, actions0, db.run, db.actions, sha.batch.scope);
      run1, actions1 := db.run, db.actions;
      result := WriteBatch(sha, if found.Some? then Option.Some(found.value.version) else Option.None);
      IngestContinues(run0, actions0, run1, actions1, db.run, db.actions, sha);
    }

    /**
     Makes a privacy request durable.  From the moment its row is stored the
     scope is suppressed, and a request to delete forgets its bodies.
     */
    method CreateRequest(request: NewRequest) returns (result: PrivacyResult)
      requires db.Valid() && db.writer == Idle && ValidRequest(request)
      requires request.legacyInstallation.Some? ==> db.v1 == V1Idle
      modifies db
      ensures db.Valid() && db.writer == Idle && Continues(old(db.run), old(db.actions), db.run, db.actions)
      ensures result.Persisted? ==> NewlyStored(old(db.history), db.history, db.suppressions, request)
      ensures result.Persisted? ==>
                && Suppressed(db.history, request.scope)
                && Accepted(db.State()) == if DeletesV2(request) then Forget(Accepted(old(db.State())), request.scope)
                                           else Accepted(old(db.State()))
      ensures result.AlreadyKnown? || result.RequestConflict? ==>
                && Silent(db.actions, |old(db.actions)|)
                && Accepted(db.State()) == Accepted(old(db.State()))
                && AnsweredBy(old(db.history), request.key, request.sha, result)
      ensures AnsweredByDigest(old(db.suppressions), request.key, request.sha, result)
      ensures result.Persisted? || result.AlreadyKnown? ==> StoredAs(db.suppressions, request.key, request.sha)
      ensures request.key in old(db.history) ==> result.AlreadyKnown? || result.RequestConflict? || result.RequestFailed?
      ensures db.reliable ==> !result.RequestFailed?
    {
      hide IsRun, Silent, Accepted, Suppressed, DeletesV2;
      forall row | row in db.suppressions && row.key == request.key
        ensures row.key in db.history && db.history[row.key] != [] && Last(db.history[row.key]).data.sha == row.data.sha
      {
        DigestsAgree(db.run, db.actions, row);
      }
      var ok, found := LookUpRequest(request);
      if !ok {
        return RequestFailed;
      }
      if found.Some? {
        if found.value.data.sha != request.sha {
          return RequestConflict;
        }
        LastIsStoredAs(db.run, db.actions, found.value);
        return AlreadyKnown(found.value.data.status);
      }
      ghost var run1, actions1 := db.run, db.actions;
      Pause();
      ContinuesOn(old(db.run), old(db.actions), run1, actions1, db.run, db.actions);
      var now := Now();
      run1, actions1 := db.run, db.actions;
      var outcome := CommitRequest(request, now);
      ContinuesOn(old(db.run), old(db.actions), run1, actions1, db.run, db.actions);
      if outcome != Acked {
        return RequestFailed;
      }
      PersistedSuppresses(db.history, request, now);
      var row := PendingRowFor(request, now);
      assert db.history[request.key] == [row] && IsFirstRowOf(row, request);
      return Persisted;
    }

    method CreatePrivacyRequest(request: NewRequest) returns (result: PrivacyResult)
      requires db.Valid() && db.writer == Idle && ValidRequest(request) && request.legacyInstallation.None?
      modifies db
      ensures db.Valid() && db.writer == Idle && Continues(old(db.run), old(db.actions), db.run, db.actions)
      ensures result.Persisted? ==>
                && Suppressed(db.history, request.scope)
                && Accepted(db.State()) == if request.action == Delete then Forget(Accepted(old(db.State())), request.scope)
                                           else Accepted(old(db.State()))
      ensures result.Persisted? ==> NewlyStored(old(db.history), db.history, db.suppressions, request)
      ensures result.AlreadyKnown? || result.RequestConflict? ==>
                && Silent(db.actions, |old(db.actions)|)
                && Accepted(db.State()) == Accepted(old(db.State()))
                && AnsweredBy(old(db.history), request.key, request.sha, result)
      ensures AnsweredByDigest(old(db.suppressions), request.key, request.sha, result)
      ensures result.Persisted? || result.AlreadyKnown? ==> StoredAs(db.suppressions, request.key, request.sha)
      ensures request.key in old(db.history) ==> result.AlreadyKnown? || result.RequestConflict? || result.RequestFailed?
      ensures db.reliable ==> !result.RequestFailed?
    {
      hide Init, Next, Silent, Accepted, Suppressed, NewlyStored, AnsweredBy, AnsweredByDigest, StoredAs;
      result := CreateRequest(request);
    }

    /** A request to delete the V1 telemetry of an installation; it also suppresses the installation as a V2 subject. */
    method CreateLegacyPrivacyRequest(id: string, installation: string, sha: string, requestedAt: int) returns (result: PrivacyResult)
      requires db.Valid() && db.writer == Idle && db.v1 == V1Idle
      modifies db
      ensures db.Valid() && db.writer == Idle && Continues(old(db.run), old(db.actions), db.run, db.actions)
      ensures result.Persisted? ==> LegacySuppressed(db.history, installation)
      ensures result.Persisted? ==>
                NewlyStored(old(db.history), db.history, db.suppressions,
                            NewRequest(RequestKey("linka-plays", id),
                                       Scope("linka-plays", "a0f1ccdc0e30ce4f267cb358ab74be5ce227f04c744d81fbaf2e2ac59893e37c",
                                             subjectOf(installation), Option.None, Option.None),
                                       Delete, sha, requestedAt, Option.Some(installation)))
      ensures result.AlreadyKnown? || result.RequestConflict? ==>
                && Silent(db.actions, |old(db.actions)|)
                && AnsweredBy(old(db.history), RequestKey(LINKA_PLAYS, id), sha, result)
      ensures AnsweredByDigest(old(db.suppressions), RequestKey(LINKA_PLAYS, id), sha, result)
      ensures result.Persisted? || result.AlreadyKnown? ==> StoredAs(db.suppressions, RequestKey(LINKA_PLAYS, id), sha)
      ensures RequestKey(LINKA_PLAYS, id) in old(db.history) ==>
                result.AlreadyKnown? || result.RequestConflict? || result.RequestFailed?
      ensures result.Persisted? ==>
                Suppressed(db.history, Scope(LINKA_PLAYS, LINKA_PLAYS_KEY, subjectOf(installation), Option.None, Option.None))
      ensures !result.RequestFailed? ==> Accepted(db.State()) == Accepted(old(db.State()))
      ensures db.reliable ==> !result.RequestFailed?
    {
      hide Init, Next, Silent, Accepted, Forget, LegacySuppressed, AnsweredBy, AnsweredByDigest, StoredAs;
      var request := LegacyRequest(id, subjectOf(installation), installation, sha, requestedAt);
      result := CreateRequest(request);
      if result.Persisted? {
        PersistedLegacySuppresses(db.history, request);
      }
    }

    method LookUpRequest(request: NewRequest) returns (ok: bool, found: Option<SuppressionRow>)
      requires db.Valid() && db.writer == Idle && ValidRequest(request)
      requires request.legacyInstallation.Some? ==> db.v1 == V1Idle
      modifies db`writer, db`run, db`actions
      ensures db.Valid()
      ensures Continues(old(db.run), old(db.actions), db.run, db.actions)
      ensures Accepted(db.State()) == Accepted(old(db.State())) && Silent(db.actions, |old(db.actions)|)
      ensures db.writer == if ok && found.None? then Requesting(request) else Idle
      ensures ok ==> (found.Some? <==> request.key in db.history)
      ensures ok && found.Some? ==> IsLastStored(db.history, found.value) && found.value.key == request.key
      ensures db.reliable ==> ok
    {
      hide IsRun, CounterFits, AtomicStep, Accepted, IsLastStored;
      ok := Reaches(db.reliable);
      found := Option.None;
      if ok {
        found := SelectFinal(db.suppressions, request.key);
        db.writer := if found.None? then Requesting(request) else Idle;
        db.Record(ByWriter(WriterAction.LookUpRequest(request, found)));
        RequestLookUpSettles(db.run, db.actions, request.key, found);
      }
    }

    /** One pending row, and the history it begins. */
    method InsertRequest(request: NewRequest, now: int) returns (outcome: Outcome)
      requires request.key !in db.history
      modifies db`suppressions, db`history
      ensures db.State() == WithStatus(old(db.State()), PendingRowFor(request, now), outcome)
      ensures outcome == Unapplied ==> db.history == old(db.history)
      ensures outcome != Unapplied ==>
                && db.history == old(db.history)[request.key := [PendingRowFor(request, now)]]
                && PendingRowFor(request, now) in db.suppressions
      ensures db.reliable ==> outcome == Acked
    {
      outcome := AnyOutcome(db.reliable);
      var row := PendingRowFor(request, now);
      assert [] + [row] == [row];
      if outcome != Unapplied {
        db.suppressions := db.suppressions + [row];
        db.history := db.history[request.key := [row]];
      }
    }

    method CommitRequest(request: NewRequest, now: int) returns (outcome: Outcome)
      requires db.Valid() && db.writer == Requesting(request)
      modifies db`writer, db`run, db`actions, db`suppressions, db`history
      ensures db.Valid() && db.writer == Idle
      ensures Continues(old(db.run), old(db.actions), db.run, db.actions)
      ensures request.key !in old(db.history)
      ensures outcome != Unapplied ==>
                && db.history == old(db.history)[request.key := [PendingRowFor(request, now)]]
                && PendingRowFor(request, now) in db.suppressions
      ensures Accepted(db.State()) ==
                if outcome != Unapplied && DeletesV2(request) then Forget(Accepted(old(db.State())), request.scope)
                else Accepted(old(db.State()))
      ensures db.reliable ==> outcome == Acked
    {
      hide IsRun, Next, CounterFits, AtomicStep, Inv, Accepted, Forget, Continues, PendingRowFor, ValidRequest, DeletesV2;
      RequestIsNew(db.run, db.actions, request);
      outcome := InsertRequest(request, now);
      db.writer := Idle;
      if outcome != Unapplied {
        CommitFits(db.run, db.actions, request, now, db.State());
      }
      Commits(old(db.State()), request, now, outcome, db.State());
      db.Record(ByWriter(WriterAction.CommitRequest(now, outcome)));
      CommitSettles(db.run, db.actions, request, WriterAction.CommitRequest(now, outcome));
    }
  }

  /**
   A privacy request sent, and sent again later: once it is stored or known, the
   same digest is known and another one conflicts, whatever became of the request.
   */
  method SendTwice(store: Store, request: NewRequest, again: NewRequest) returns (first: PrivacyResult, second: PrivacyResult)
    requires store.db.Valid() && store.db.writer == Idle && again.key == request.key
    requires ValidRequest(request) && request.legacyInstallation.None?
    requires ValidRequest(again) && again.legacyInstallation.None?
    modifies store.db
    ensures store.db.Valid() && store.db.writer == Idle
    ensures first.Persisted? || first.AlreadyKnown? ==>
              second.RequestFailed? || if again.sha == request.sha then second.AlreadyKnown? else second.RequestConflict?
    ensures store.db.reliable && first.Persisted? && again.sha == request.sha ==> second.AlreadyKnown?
  {
    hide Init, Next, Silent, Accepted, Suppressed, AnsweredBy, NewlyStored;
    var db := store.db;
    first := store.CreatePrivacyRequest(request);
    ghost var run1, actions1 := db.run, db.actions;
    db.OthersRun();
    if first.Persisted? || first.AlreadyKnown? {
      StillStored(run1, actions1, db.run, db.actions, request.key, request.sha);
    }
    second := store.CreatePrivacyRequest(again);
  }

  /** The rows of the registry query, scanned up to the first that belongs to another batch or body. */
  method FindClash(registry: seq<RegistryRow>, sha: Digest) returns (clash: Option<RegistryRow>)
    ensures match clash
            case Some(r) => r in registry && Clashes(r, sha)
            case None => forall r | r in registry :: !Clashes(r, sha)
  {
    var recordIds: set<string> := {};
    for i := 0 to |sha.batch.records|
      invariant forall id :: id in recordIds <==> exists r :: r in sha.batch.records[..i] && r.id == id
    {
      recordIds := recordIds + {sha.batch.records[i].id};
      assert sha.batch.records[..i + 1] == sha.batch.records[..i] + [sha.batch.records[i]];
    }
    assert sha.batch.records[..|sha.batch.records|] == sha.batch.records;
    assert forall id :: id in recordIds <==> HasRecord(sha.batch, id);
    for i := 0 to |registry|
      invariant forall r | r in registry[..i] :: !Clashes(r, sha)
    {
      var row := registry[i];
      assert registry[..i + 1] == registry[..i] + [row];
      if row.key.product == sha.batch.scope.product && row.key.record in recordIds
         && (row.data.batch != sha.batch.id || row.data.sha != sha) {
        return Option.Some(row);
      }
    }
    assert registry[..|registry|] == registry;
    return Option.None;
  }

  /** The count query of the suppression gate, with a row it counted as witness. */
  method CountSuppressions(rows: seq<SuppressionRow>, scope: Scope) returns (count: nat, ghost hit: Option<SuppressionRow>)
    ensures SuppressionRead(rows, scope, hit)
    ensures count > 0 <==> exists r :: r in rows && IsNewest(rows, r) && r.data.active && GateMatches(r.data.scope, scope)
  {
    count, hit := 0, Option.None;
    for i := 0 to |rows|
      invariant count > 0 <==> hit.Some?
      invariant match hit
                case Some(r) => IsNewest(rows, r) && r.data.active && GateMatches(r.data.scope, scope)
                case None => forall r | r in rows[..i] && IsNewest(rows, r) :: !(r.data.active && GateMatches(r.data.scope, scope))
    {
      assert rows[..i + 1] == rows[..i] + [rows[i]];
      if IsNewest(rows, rows[i]) && rows[i].data.active && GateMatches(rows[i].data.scope, scope) {
        count, hit := count + 1, Option.Some(rows[i]);
      }
    }
    assert rows[..|rows|] == rows;
  }
}
