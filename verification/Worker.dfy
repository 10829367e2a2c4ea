/**
 The privacy worker: the store's methods it drives, and the loop that drives them.
 */
module Worker {
  import opened Tables
  import opened Telemetry
  import opened Protocol
  import opened History
  import opened Invariant
  import opened Facts
  import opened WorkerSteps
  import opened MutationSteps
  import opened Safety
  import opened Theorems
  import opened Exactly
  import opened Atomic
  import opened Database
  import Store

  // ---------- What other processes do to the status rows ----------

  /** Rows stored for requests other than `keys` stay, and new requests have not been claimed. */
  ghost predicate OnlyTouches(
    history: map<RequestKey, seq<SuppressionRow>>, history': map<RequestKey, seq<SuppressionRow>>, keys: set<RequestKey>)
  {
    && (forall k | k in history :: k in history' && (k !in keys ==> history'[k] == history[k]))
    && (forall k | k in history' && k !in history :: Claims(history'[k]) == 0)
  }

  lemma OnlyTouchesOn(
    h: map<RequestKey, seq<SuppressionRow>>, h': map<RequestKey, seq<SuppressionRow>>, h'': map<RequestKey, seq<SuppressionRow>>,
    keys: set<RequestKey>)
    requires OnlyTouches(h, h', keys) && OnlyTouches(h', h'', keys) && keys <= h.Keys
    ensures OnlyTouches(h, h'', keys)
  {
  }

  lemma TouchesMore(
    h: map<RequestKey, seq<SuppressionRow>>, h': map<RequestKey, seq<SuppressionRow>>, few: set<RequestKey>, many: set<RequestKey>)
    requires OnlyTouches(h, h', few) && few <= many
    ensures OnlyTouches(h, h', many)
  {
  }

  lemma CommitTouchesNone(s: Sys, a: WriterAction)
    requires Inv(s) && WriterEnabled(s, a) && a.CommitRequest?
    ensures OnlyTouches(s.history, WriterApply(s, a).history, {})
  {
    hide LedgerOk, ChainOk, HistoryOk, ErasureOk, CompletedIsWritten, V1Ok, DeleterOk;
    var row := PendingRowFor(s.writer.request, a.now);
    assert [] + [row] == [row] && [row][..0] == [] && Claims([row]) == 0;
  }

  lemma MergeKeepsHistory(s: Sys, a: MergeAction)
    requires MergeEnabled(s, a)
    ensures MergeApply(s, a).history == s.history
  {
  }

  lemma OthersTouchNone(s: Sys, a: Action, s': Sys)
    requires Inv(s) && Next(s, a, s') && !a.ByWorker?
    ensures OnlyTouches(s.history, s'.history, {})
  {
    hide Inv, WriterEnabled, V1Enabled, V1Apply, MergeApply, MutationEnabled, MutationApply, OnlyTouches;
    TouchesItself(s.history);
    match a
    case ByWriter(w) =>
      if w.CommitRequest? {
        CommitTouchesNone(s, w);
      } else {
        WriterLedger(s, w);
      }
    case ByV1(v) => V1IsInvisible(s, v);
    case ByMerge(m) => MergeKeepsHistory(s, m);
    case ByMutation(m, i) => MutationLedger(s, m, i);
  }

  lemma {:induction false} OthersRunTouchesNone(run: seq<Sys>, actions: seq<Action>, i: nat, j: nat)
    requires |run| == |actions| + 1 && IsRun(run, actions) && i <= j < |run|
    requires forall m | i <= m < j :: !actions[m].ByWorker?
    ensures OnlyTouches(run[i].history, run[j].history, {})
    decreases j
  {
    hide *;
    if i < j {
      OthersRunTouchesNone(run, actions, i, j - 1);
      RunInv(run, actions, j - 1);
      StepOfRun(run, actions, j - 1);
      OthersTouchNone(run[j - 1], actions[j - 1], run[j]);
      OnlyTouchesOn(run[i].history, run[j - 1].history, run[j].history, {});
    } else {
      TouchesItself(run[i].history);
    }
  }

  lemma TouchesItself(history: map<RequestKey, seq<SuppressionRow>>)
    ensures OnlyTouches(history, history, {})
  {
  }

  // ---------- One more status row ----------

  /** A status row fits the counter if it is no claim, or there is room for one. */
  lemma RowFits(run: seq<Sys>, actions: seq<Action>, row: SuppressionRow, s: Sys)
    requires |run| == |actions| + 1 && IsRun(run, actions) && row.key in run[|run| - 1].history
    requires row.data.status == Processing ==> Claims(run[|run| - 1].history[row.key]) < 0xFFFF
    requires s.history == run[|run| - 1].history[row.key := run[|run| - 1].history[row.key] + [row]]
    ensures CounterFits(s)
  {
    assert CounterFits(run[|run| - 1]);
    var rows := run[|run| - 1].history[row.key];
    assert (rows + [row])[..|rows|] == rows;
  }

  /** Unless the request is settled, its UInt16 counter has room for one more claim. */
  ghost predicate RoomFor(rows: seq<SuppressionRow>)
  {
    rows != [] && Last(rows).data.status !in {PrivacyStatus.Completed, Failed} ==> Claims(rows) < 0xFFFF
  }

  /** The last row says that the request is claimed for the time so many attempts, from then on for five minutes. */
  ghost predicate IsLeased(rows: seq<SuppressionRow>, attempts: nat, at: int)
  {
    rows != [] &&
    var d := Last(rows).data;
    d.status == Processing && d.attempts == attempts && d.availableAt == at && d.leaseUntil == Some(at + 300_000)
  }

  lemma ClaimIsLeased(rows: seq<SuppressionRow>, request: Request, now: int)
    ensures IsLeased(rows + [ClaimRow(request, request.attempts, now)], NextAttempt(request.attempts), now)
  {
    hide NextAttempt;
  }

  /** The last row says how the claim ended: completed, failed if no attempt is left, or in retry after a backoff. */
  ghost predicate IsDecided(rows: seq<SuppressionRow>, attempts: nat, succeeded: bool, maxAttempts: nat, at: int)
  {
    rows != [] &&
    var d := Last(rows).data;
    && d.attempts == attempts && d.leaseUntil.None?
    && (succeeded ==> d.status == PrivacyStatus.Completed && d.availableAt == at)
    && (!succeeded ==> d.status == (if attempts < maxAttempts then Retry else Failed) && d.availableAt == at + RetryDelay(attempts))
  }

  lemma OutcomeRepeats(rows: seq<SuppressionRow>, rows': seq<SuppressionRow>, request: Request, succeeded: bool, maxAttempts: nat)
    requires OutcomeStored(rows, rows', request, succeeded, maxAttempts)
    ensures rows' != [] && Last(rows').key == request.key && Last(rows').data.requestedAt == request.requestedAt
  {
  }

  lemma OutcomeIsDecided(rows: seq<SuppressionRow>, request: Request, succeeded: bool, maxAttempts: nat, now: int)
    ensures IsDecided(rows + [OutcomeRow(request, succeeded, maxAttempts, now)], request.attempts, succeeded, maxAttempts, now)
  {
    hide RetryDelay;
  }

  lemma DueHasRoom(rows: seq<SuppressionRow>, now: int)
    requires RoomFor(rows) && rows != [] && Due(Last(rows), now)
    ensures Claims(rows) < 0xFFFF
  {
  }

  /** Whether a request waits for a worker, told by its status. */
  predicate WaitsForWorker(d: SuppressionData, now: int)
  {
    match d.status
    case Pending => d.availableAt <= now
    case Retry => d.availableAt <= now
    case Processing => d.leaseUntil.Some? && d.leaseUntil.value < now
    case Completed => false
    case Failed => false
  }

  /** The conditions of the list and of the claim say just that. */
  lemma DueIsWaiting(row: SuppressionRow, now: int)
    ensures Due(row, now) <==> WaitsForWorker(row.data, now)
  {
  }

  // ---------- The store's methods ----------

  /** The store as the worker process uses it. */
  class PrivacyStore {
    const db: Connection

    constructor (db: Connection)
      ensures this.db == db
    {
      this.db := db;
    }

    /** Between two statements the rest of the system runs on. */
    method Pause()
      requires db.Valid()
      modifies db
      ensures db.Valid() && db.worker == old(db.worker)
      ensures Continues(old(db.run), old(db.actions), db.run, db.actions)
      ensures OnlyTouches(old(db.history), db.history, {})
    {
      hide Init, Next;
      db.OthersRunBesideWorker();
      OthersRunTouchesNone(db.run, db.actions, |old(db.actions)|, |db.actions|);
      assert db.run[|old(db.actions)|] == db.run[..|old(db.run)|][|old(db.actions)|];
    }

    /** The requests that are due by the server's clock, at most `limit` of them. */
    method PendingPrivacyRequests(limit: nat, now: int) returns (ok: bool, requests: seq<Request>)
      requires db.Valid() && (db.worker == Resting || db.worker == Listed([]))
      modifies db`worker, db`run, db`actions
      ensures db.Valid() && Continues(old(db.run), old(db.actions), db.run, db.actions)
      ensures db.worker == if ok then Listed(requests) else old(db.worker)
      ensures QueueOk(requests, db.history) && |requests| <= limit
      ensures !ok ==> requests == []
      ensures forall i, j | 0 <= i < j < |requests| :: requests[i].requestedAt <= requests[j].requestedAt
      ensures ok ==> forall r | IsNewest(db.suppressions, r) && WaitsForWorker(r.data, now) :: ListedOrLater(requests, limit, r)
      ensures forall q | q in requests :: IsOpen(db.history, q.key, now)
      ensures db.reliable ==> ok
    {
      hide IsRun, CounterFits, QueueOk, IsNewest, Due, WaitsForWorker, HasKey, LeftOut, ListedOrLater, IsOpen, AtomicStep, Accepted;
      ok := Reaches(db.reliable);
      requests := [];
      if ok {
        var rows := SelectDue(db.suppressions, limit, now);
        requests := Snapshots(rows);
        db.worker := Listed(requests);
        db.Record(ByWorker(ListPending(now, rows)));
        QueueIsCurrent(db.run, db.actions, requests);
        OnlyOpenListed(db.run, db.actions, rows, now);
        forall r | IsNewest(db.suppressions, r) && WaitsForWorker(r.data, now)
          ensures ListedOrLater(requests, limit, r)
        {
          DueIsWaiting(r, now);
          DueIsListed(db.run, db.actions, rows, limit, r);
        }
      } else {
        NothingQueued(db.history);
      }
    }

    lemma ListIsComplete(requests: seq<Request>, limit: nat, now: int)
      requires db.Valid()
      requires forall r | IsNewest(db.suppressions, r) && WaitsForWorker(r.data, now) :: ListedOrLater(requests, limit, r)
      ensures ListsOpen(db.history, requests, limit, now)
    {
      hide IsRun, IsNewest, WaitsForWorker, ListedOrLater, ListsOpen;
      OpenIsListed(db.run, db.actions, requests, limit, now);
    }

    // ---------- Claim ----------

    /** The first statement of a claim: is the request still claimable? */
    method ReadClaim(request: Request, ghost queue: seq<Request>, now: int) returns (ok: bool, claimable: bool, attempts: nat)
      requires db.Valid() && db.worker == Listed([request] + queue)
      modifies db`worker, db`run, db`actions
      ensures db.Valid() && Continues(old(db.run), old(db.actions), db.run, db.actions)
      ensures db.worker == if ok && claimable then Claiming(request, queue, attempts, now) else Listed(queue)
      ensures ok && claimable ==> attempts == request.attempts
      ensures ok && request.key in db.history ==>
                db.history[request.key] != [] && (claimable <==> Due(Last(db.history[request.key]), now))
      ensures db.reliable && request.key in db.history ==> ok
    {
      hide IsRun, Next, CounterFits, AtomicStep, Inv, Accepted, Continues, FinalRead;
      ok := Reaches(db.reliable);
      claimable, attempts := false, 0;
      var found := Option.None;
      if ok {
        found := SelectFinal(db.suppressions, request.key);
        RequestIsFound(db.run, db.actions, request.key, found);
      }
      if found.None? {
        ok := false;
        db.worker := Listed(queue);
        Skips(old(db.State()), request, queue, db.State());
        db.Record(ByWorker(SkipRequest));
        return;
      }
      claimable := Due(found.value, now);
      db.worker := if claimable then Claiming(request, queue, found.value.data.attempts, now) else Listed(queue);
      ReadsClaim(old(db.State()), request, queue, now, found.value, db.State());
      db.Record(ByWorker(WorkerAction.ReadClaim(now, found.value)));
      if claimable {
        attempts := found.value.data.attempts;
        ClaimCounts(db.run, db.actions);
      }
    }

    /** One status row, and its place in the history of the request. */
    method InsertPrivacyStatus(row: SuppressionRow) returns (outcome: Outcome)
      requires row.key in db.history
      modifies db`suppressions, db`history
      ensures db.State() == WithStatus(old(db.State()), row, outcome)
      ensures outcome == Unapplied ==> db.history == old(db.history)
      ensures outcome != Unapplied ==> db.history == old(db.history)[row.key := old(db.history)[row.key] + [row]]
      ensures OnlyTouches(old(db.history), db.history, {row.key})
      ensures db.reliable ==> outcome == Acked
    {
      outcome := AnyOutcome(db.reliable);
      if outcome != Unapplied {
        db.suppressions := db.suppressions + [row];
        db.history := db.history[row.key := db.history[row.key] + [row]];
      }
    }

    /** The second statement of a claim. */
    method WriteClaim(request: Request, ghost queue: seq<Request>, attempts: nat, now: int) returns (outcome: Outcome)
      requires db.Valid() && db.worker == Claiming(request, queue, attempts, now) && attempts == request.attempts
      requires request.key in db.history && Claims(db.history[request.key]) < 0xFFFF
      modifies db`worker, db`run, db`actions, db`suppressions, db`history
      ensures db.Valid() && Continues(old(db.run), old(db.actions), db.run, db.actions)
      ensures db.worker == if outcome == Acked then Dispatch(request.(attempts := NextAttempt(request.attempts)), queue) else Listed(queue)
      ensures OnlyTouches(old(db.history), db.history, {request.key})
      ensures outcome == Unapplied ==> db.history == old(db.history)
      ensures outcome != Unapplied ==>
                db.history[request.key] == old(db.history)[request.key] + [ClaimRow(request, request.attempts, now)]
      ensures db.reliable ==> outcome == Acked
    {
      hide IsRun, Claims, Dispatch, Continues;
      var row := ClaimRow(request, attempts, now);
      outcome := InsertPrivacyStatus(row);
      db.worker := if outcome == Acked then Dispatch(request.(attempts := NextAttempt(request.attempts)), queue) else Listed(queue);
      if outcome != Unapplied {
        RowFits(db.run, db.actions, row, db.State());
      }
      db.Record(ByWorker(WorkerAction.WriteClaim(outcome)));
    }

    /** Takes a request, if it still is due by the worker's clock. */
    method ClaimPrivacyRequest(request: Request, ghost queue: seq<Request>) returns (ok: bool, claimed: bool, ghost at: int)
      requires db.Valid() && db.worker == Listed([request] + queue)
      requires request.key in db.history && RoomFor(db.history[request.key])
      modifies db
      ensures db.Valid() && Continues(old(db.run), old(db.actions), db.run, db.actions)
      ensures db.worker == if ok && claimed then Dispatch(request.(attempts := NextAttempt(request.attempts)), queue) else Listed(queue)
      ensures OnlyTouches(old(db.history), db.history, {request.key})
      ensures request.key in db.history
      ensures ok ==> (claimed <==> IsOpen(old(db.history), request.key, at))
      ensures ok && !claimed ==> db.history[request.key] == old(db.history)[request.key] != []
      ensures ok && claimed ==> ClaimStored(old(db.history)[request.key], db.history[request.key], request)
      ensures ok && claimed ==> IsLeased(db.history[request.key], NextAttempt(request.attempts), at)
      ensures !ok ==> || db.history[request.key] == old(db.history)[request.key]
                      || ClaimStored(old(db.history)[request.key], db.history[request.key], request)
      ensures db.reliable ==> ok
    {
      hide Init, Next, CounterFits, Claims, OnlyTouches, Dispatch, NextAttempt, Continues, Due, WaitsForWorker, ClaimRow, IsLeased;
      ghost var run0, actions0, history0 := db.run, db.actions, db.history;
      Pause();
      InHistory(history0, db.history, request.key);
      ghost var run1, actions1, history1 := db.run, db.actions, db.history;
      TouchesMore(history0, history1, {}, {request.key});
      var now := Now();
      at := now;
      var attempts;
      ok, claimed, attempts := ReadClaim(request, queue, now);
      Store.ContinuesOn(run0, actions0, run1, actions1, db.run, db.actions);
      if ok {
        DueIsWaiting(Last(history0[request.key]), now);
      }
      if !ok || !claimed {
        return;
      }
      assert Due(Last(history0[request.key]), now);
      DueHasRoom(history0[request.key], now);
      run1, actions1 := db.run, db.actions;
      Pause();
      Store.ContinuesOn(run0, actions0, run1, actions1, db.run, db.actions);
      OnlyTouchesOn(history0, history1, db.history, {});
      InHistory(history0, db.history, request.key);
      TouchesMore(history0, db.history, {}, {request.key});
      ghost var history2 := db.history;
      run1, actions1 := db.run, db.actions;
      var outcome := WriteClaim(request, queue, attempts, now);
      Store.ContinuesOn(run0, actions0, run1, actions1, db.run, db.actions);
      OnlyTouchesOn(history0, history2, db.history, {request.key});
      ClaimIsLeased(history0[request.key], request, now);
      ok := outcome == Acked;
    }

    // ---------- Outcome ----------

    method WriteOutcome(request: Request, ghost queue: seq<Request>, succeeded: bool, maxAttempts: nat)
      returns (ok: bool, ghost at: int)
      requires db.Valid() && db.worker == Closing(request, queue, succeeded) && maxAttempts == db.maxAttempts
      requires request.key in db.history
      modifies db
      ensures db.Valid() && Continues(old(db.run), old(db.actions), db.run, db.actions)
      ensures db.worker == Listed(queue)
      ensures OnlyTouches(old(db.history), db.history, {request.key})
      ensures request.key in db.history
      ensures ok ==> OutcomeStored(old(db.history)[request.key], db.history[request.key], request, succeeded, maxAttempts)
      ensures ok ==> IsDecided(db.history[request.key], request.attempts, succeeded, maxAttempts, at)
      ensures !ok ==> || db.history[request.key] == old(db.history)[request.key]
                      || OutcomeStored(old(db.history)[request.key], db.history[request.key], request, succeeded, maxAttempts)
      ensures db.reliable ==> ok
    {
      hide Init, Next, Claims, OnlyTouches, Continues, OutcomeRow, IsDecided;
      ghost var run0, actions0, history0 := db.run, db.actions, db.history;
      Pause();
      InHistory(history0, db.history, request.key);
      TouchesMore(history0, db.history, {}, {request.key});
      ghost var run1, actions1, history1 := db.run, db.actions, db.history;
      var now := Now();
      at := now;
      var outcome := RecordOutcome(request, queue, succeeded, maxAttempts, now);
      OutcomeIsDecided(history0[request.key], request, succeeded, maxAttempts, now);
      Store.ContinuesOn(run0, actions0, run1, actions1, db.run, db.actions);
      OnlyTouchesOn(history0, history1, db.history, {request.key});
      ok := outcome == Acked;
    }

    method RecordOutcome(request: Request, ghost queue: seq<Request>, succeeded: bool, maxAttempts: nat, now: int) returns (outcome: Outcome)
      requires db.Valid() && db.worker == Closing(request, queue, succeeded) && request.key in db.history
      requires maxAttempts == db.maxAttempts
      modifies db`worker, db`run, db`actions, db`suppressions, db`history
      ensures db.Valid() && Continues(old(db.run), old(db.actions), db.run, db.actions)
      ensures db.worker == Listed(queue)
      ensures OnlyTouches(old(db.history), db.history, {request.key})
      ensures outcome == Unapplied ==> db.history == old(db.history)
      ensures outcome != Unapplied ==>
                && request.key in db.history
                && db.history[request.key] == old(db.history)[request.key] + [OutcomeRow(request, succeeded, maxAttempts, now)]
      ensures db.reliable ==> outcome == Acked
    {
      hide IsRun, CounterFits, Inv, AtomicStep, Accepted, Claims, OnlyTouches, Continues, StatusVersion, RetryDelay;
      var row := OutcomeRow(request, succeeded, maxAttempts, now);
      outcome := InsertPrivacyStatus(row);
      db.worker := Listed(queue);
      if outcome != Unapplied {
        RowFits(db.run, db.actions, row, db.State());
      }
      db.Record(ByWorker(WorkerAction.WriteOutcome(now, outcome)));
    }

    // ---------- Deletion ----------

    method ReadProgress(request: Request, ghost queue: seq<Request>, i: nat) returns (ok: bool, mark: Option<ProgressRow>)
      requires db.Valid() && i < |TablesOf(request.legacyInstallation)| && db.worker == Deleting(request, queue, i)
      modifies db`worker, db`run, db`actions
      ensures db.Valid() && Continues(old(db.run), old(db.actions), db.run, db.actions)
      ensures db.worker ==
                if !ok then Closing(request, queue, false)
                else if mark.Some? && mark.value.data.status == Completed then NextTable(request, queue, i + 1)
                else Marking(request, queue, i, MarkAttempts(mark))
      ensures db.reliable ==> ok
    {
      hide IsRun, CounterFits, TablesOf;
      ok := Reaches(db.reliable);
      mark := None;
      if ok {
        mark := SelectFinal(db.progress, ProgressKey(request.key, CurrentTable(request, i)));
        db.worker := if mark.Some? && mark.value.data.status == Completed then NextTable(request, queue, i + 1)
                     else Marking(request, queue, i, MarkAttempts(mark));
        db.Record(ByWorker(WorkerAction.ReadProgress(mark)));
      } else {
        db.worker := Closing(request, queue, false);
        db.Record(ByWorker(FailProgressRead));
      }
    }

    /** One progress row, and its place among the marks of the table. */
    method InsertDeletionProgress(row: ProgressRow) returns (outcome: Outcome)
      modifies db`progress, db`marks
      ensures db.State() == WithMark(old(db.State()), row, outcome)
      ensures db.reliable ==> outcome == Acked
    {
      outcome := AnyOutcome(db.reliable);
      if outcome != Unapplied {
        db.progress := db.progress + [row];
        db.marks := db.marks[row.key := (if row.key in db.marks then db.marks[row.key] else []) + [row]];
      }
    }

    method MarkProcessing(request: Request, ghost queue: seq<Request>, i: nat, attempts: nat) returns (ok: bool)
      requires db.Valid() && i < |TablesOf(request.legacyInstallation)| && db.worker == Marking(request, queue, i, attempts)
      modifies db`worker, db`run, db`actions, db`progress, db`marks
      ensures db.Valid() && Continues(old(db.run), old(db.actions), db.run, db.actions)
      ensures db.worker == if ok then Marked(request, queue, i, NextAttempt(attempts)) else Closing(request, queue, false)
      ensures db.reliable ==> ok
    {
      hide IsRun;
      var row := ProgressRowFor(request, CurrentTable(request, i), Processing, NextAttempt(attempts));
      var outcome := InsertDeletionProgress(row);
      ok := outcome == Acked;
      db.worker := if ok then Marked(request, queue, i, NextAttempt(attempts)) else Closing(request, queue, false);
      db.Record(ByWorker(WorkerAction.MarkProcessing(outcome)));
    }

    /** The error of this insert is dropped: the mutation's own error is returned. */
    method MarkRetry(request: Request, ghost queue: seq<Request>, i: nat, attempts: nat)
      requires db.Valid() && i < |TablesOf(request.legacyInstallation)| && db.worker == Botched(request, queue, i, attempts)
      modifies db`worker, db`run, db`actions, db`progress, db`marks
      ensures db.Valid() && Continues(old(db.run), old(db.actions), db.run, db.actions)
      ensures db.worker == Closing(request, queue, false)
    {
      hide IsRun, CounterFits, Inv, AtomicStep, Accepted, TablesOf, StatusVersion, Continues;
      var outcome := InsertDeletionProgress(ProgressRowFor(request, CurrentTable(request, i), Retry, attempts));
      db.worker := Closing(request, queue, false);
      db.Record(ByWorker(WorkerAction.MarkRetry(outcome)));
    }

    method MarkCompleted(request: Request, ghost queue: seq<Request>, i: nat, attempts: nat) returns (ok: bool)
      requires db.Valid() && i < |TablesOf(request.legacyInstallation)| && db.worker == Mutated(request, queue, i, attempts)
      modifies db`worker, db`run, db`actions, db`progress, db`marks
      ensures db.Valid() && Continues(old(db.run), old(db.actions), db.run, db.actions)
      ensures db.worker == if ok then NextTable(request, queue, i + 1) else Closing(request, queue, false)
      ensures db.reliable ==> ok
    {
      hide IsRun, TablesOf;
      var outcome := InsertDeletionProgress(ProgressRowFor(request, CurrentTable(request, i), Completed, attempts));
      ok := outcome == Acked;
      db.worker := if ok then NextTable(request, queue, i + 1) else Closing(request, queue, false);
      db.Record(ByWorker(WorkerAction.MarkCompleted(outcome)));
    }

    /** What the tables that are deleted from hold. */
    function Held(): Contents
      reads db
    {
      Contents(db.ledger, db.registry, db.streams, db.v1Rows)
    }

    /** The statement reaches the server, which notes what it covers, or it does not. */
    method SubmitMutation(request: Request, ghost queue: seq<Request>, i: nat, ghost attempts: nat, reached: bool)
      requires db.Valid() && i < |TablesOf(request.legacyInstallation)| && db.worker == WorkerPc.Marked(request, queue, i, attempts)
      modifies db`worker, db`run, db`actions, db`mutations
      ensures db.Valid() && Continues(old(db.run), old(db.actions), db.run, db.actions)
      ensures db.worker == if reached then Mutating(request, queue, i, attempts, |old(db.mutations)|) else Botched(request, queue, i, attempts)
      ensures reached ==> |db.mutations| == |old(db.mutations)| + 1
    {
      hide IsRun;
      if reached {
        db.worker := Mutating(request, queue, i, attempts, |db.mutations|);
        db.mutations := db.mutations + [Mutation(request.key, request.scope, request.legacyInstallation, i, Held())];
      } else {
        db.worker := Botched(request, queue, i, attempts);
      }
      db.Record(ByWorker(WorkerAction.SubmitMutation(reached)));
    }

    /** The server removes one of the rows that a mutation covers. */
    method RemoveRow(mutation: nat, index: nat)
      requires db.Valid() && MutationEnabled(db.State(), mutation, index)
      modifies db`ledger, db`registry, db`streams, db`v1Rows, db`run, db`actions
      ensures db.Valid() && Continues(old(db.run), old(db.actions), db.run, db.actions)
      ensures db.State() == MutationApply(old(db.State()), mutation, index)
    {
      hide IsRun, CounterFits, Inv, AtomicStep, Accepted, TablesOf, Continues, DeleteMatches;
      match TableOf(db.mutations[mutation]) {
        case StreamTable(_) => db.streams := Without(db.streams, index);
        case RegistryTable => db.registry := Without(db.registry, index);
        case LedgerTable => db.ledger := Without(db.ledger, index);
        case _ => db.v1Rows := Without(db.v1Rows, index);
      }
      db.Record(ByMutation(mutation, index));
    }

    /** The server removes all rows that are left of those a mutation covers. */
    method RemoveRows(mutation: nat)
      requires db.Valid() && mutation < |db.mutations| && HasTable(db.mutations[mutation])
      modifies db`ledger, db`registry, db`streams, db`v1Rows, db`run, db`actions
      ensures db.Valid() && Continues(old(db.run), old(db.actions), db.run, db.actions)
      ensures Finished(Held(), db.mutations[mutation])
    {
      hide IsRun, Continues, RowCovered, RemoveCovered, Finished;
      var m := db.mutations[mutation];
      ghost var run0, actions0 := db.run, db.actions;
      Store.ContinuesSame(run0, actions0);
      var n := TableSize(Held(), TableOf(m));
      while n > 0
        invariant 0 <= n <= TableSize(Held(), TableOf(m))
        invariant db.Valid() && Continues(run0, actions0, db.run, db.actions)
        invariant NoneCovered(Held(), m, n)
      {
        n := n - 1;
        if RowCovered(Held(), m, n) {
          ghost var s, run1, actions1 := db.State(), db.run, db.actions;
          RemoveRow(mutation, n);
          Store.ContinuesOn(run0, actions0, run1, actions1, db.run, db.actions);
          RowsMoveUp(s, m, n);
        }
      }
      NoneCoveredIsFinished(Held(), m);
    }

    /** The server removes one row or none, and everybody else goes on. */
    method RemoveOneAndPause(request: Request, ghost queue: seq<Request>, i: nat, ghost attempts: nat, mutation: nat)
      requires db.Valid() && i < |TablesOf(request.legacyInstallation)| && db.worker == Mutating(request, queue, i, attempts, mutation)
      modifies db
      ensures db.Valid() && Continues(old(db.run), old(db.actions), db.run, db.actions)
      ensures db.worker == old(db.worker) && OnlyTouches(old(db.history), db.history, {})
    {
      hide IsRun, TablesOf, Continues, OnlyTouches, RowCovered, Finished, IsClear;
      ghost var run0, actions0 := db.run, db.actions;
      Store.ContinuesSame(run0, actions0);
      SubmittedIsKept(db.run, db.actions);
      var n: nat := *;
      if RowCovered(Held(), db.mutations[mutation], n) {
        RemoveRow(mutation, n);
      }
      ghost var run1, actions1 := db.run, db.actions;
      Pause();
      Store.ContinuesOn(run0, actions0, run1, actions1, db.run, db.actions);
    }

    /** The mutation the worker waits for is one of those submitted. */
    lemma AwaitedIsKept()
      requires db.Valid()
      ensures db.worker.Mutating? ==> db.worker.mutation < |db.mutations| && HasTable(db.mutations[db.worker.mutation])
    {
      hide IsRun, HasTable;
      SubmittedIsKept(db.run, db.actions);
    }

    /**
     `ALTER TABLE ... DELETE WHERE ... SETTINGS mutations_sync = 2`.  While the
     worker waits, the server removes rows and everybody else goes on; the
     statement may fail at any time, and what the server has taken on stays.
     */
    method AlterDelete(request: Request, ghost queue: seq<Request>, i: nat, ghost attempts: nat) returns (acked: bool)
      requires db.Valid() && i < |TablesOf(request.legacyInstallation)| && db.worker == WorkerPc.Marked(request, queue, i, attempts)
      modifies db
      ensures db.Valid() && Continues(old(db.run), old(db.actions), db.run, db.actions)
      ensures db.worker == if acked then Mutated(request, queue, i, attempts) else Botched(request, queue, i, attempts)
      ensures acked ==> IsClear(db.State(), request, CurrentTable(request, i))
      ensures OnlyTouches(old(db.history), db.history, {})
      ensures db.reliable ==> acked
    {
      hide *;
      ghost var run0, actions0, history0 := db.run, db.actions, db.history;
      acked := Reaches(db.reliable);
      SubmitMutation(request, queue, i, attempts, acked);
      TouchesItself(history0);
      if !acked {
        return;
      }
      var mutation := |db.mutations| - 1;
      var rounds: nat := *;
      while rounds > 0
        invariant db.Valid() && Continues(run0, actions0, db.run, db.actions)
        invariant db.worker == Mutating(request, queue, i, attempts, mutation)
        invariant OnlyTouches(history0, db.history, {})
      {
        ghost var run1, actions1, history1 := db.run, db.actions, db.history;
        RemoveOneAndPause(request, queue, i, attempts, mutation);
        Store.ContinuesOn(run0, actions0, run1, actions1, db.run, db.actions);
        OnlyTouchesOn(history0, history1, db.history, {});
        rounds := rounds - 1;
      }
      ghost var run1, actions1 := db.run, db.actions;
      acked := Reaches(db.reliable);
      AwaitedIsKept();
      if acked {
        RemoveRows(mutation);
        Store.ContinuesOn(run0, actions0, run1, actions1, db.run, db.actions);
        run1, actions1 := db.run, db.actions;
      }
      EndMutation(request, queue, i, attempts, mutation, acked);
      Store.ContinuesOn(run0, actions0, run1, actions1, db.run, db.actions);
    }

    ghost method EndMutation(request: Request, queue: seq<Request>, i: nat, attempts: nat, mutation: nat, acked: bool)
      requires db.Valid() && i < |TablesOf(request.legacyInstallation)| && db.worker == Mutating(request, queue, i, attempts, mutation)
      requires acked ==> mutation < |db.mutations| && HasTable(db.mutations[mutation]) && Finished(Held(), db.mutations[mutation])
      modifies db`worker, db`run, db`actions
      ensures db.Valid() && Continues(old(db.run), old(db.actions), db.run, db.actions)
      ensures db.worker == if acked then Mutated(request, queue, i, attempts) else Botched(request, queue, i, attempts)
      ensures acked ==> IsClear(db.State(), request, CurrentTable(request, i))
    {
      hide IsRun, CounterFits, Inv, AtomicStep, Accepted, TablesOf, Continues, Finished, IsClear;
      db.worker := if acked then Mutated(request, queue, i, attempts) else Botched(request, queue, i, attempts);
      db.Record(ByWorker(WorkerAction.EndMutation(acked)));
      MutatedIsClear(db.run, db.actions);
    }

    /** Deletes the request's scope from one table, unless its progress says that this is done. */
    method DeleteTelemetryTable(request: Request, ghost queue: seq<Request>, i: nat) returns (ok: bool)
      requires db.Valid() && i < |TablesOf(request.legacyInstallation)| && db.worker == Deleting(request, queue, i)
      modifies db
      ensures db.Valid() && Continues(old(db.run), old(db.actions), db.run, db.actions)
      ensures db.worker == if ok then NextTable(request, queue, i + 1) else Closing(request, queue, false)
      ensures ok ==> forall j | 0 <= j <= i :: IsClear(db.State(), request, CurrentTable(request, j))
      ensures OnlyTouches(old(db.history), db.history, {})
      ensures db.reliable ==> ok
    {
      hide IsRun, Init, Next, CounterFits, Inv, AtomicStep, Accepted, TablesOf, Continues, OnlyTouches, NextTable, NextAttempt, IsClear;
      LoopDeletes(db.run, db.actions);
      ghost var run0, actions0, history0 := db.run, db.actions, db.history;
      Pause();
      ghost var run1, actions1 := db.run, db.actions;
      var mark;
      ok, mark := ReadProgress(request, queue, i);
      Store.ContinuesOn(run0, actions0, run1, actions1, db.run, db.actions);
      if !ok {
        return;
      }
      if mark.Some? && mark.value.data.status == Completed {
        PassedIsClear(db.run, db.actions, request, queue, i);
        return;
      }
      ghost var history1 := db.history;
      run1, actions1 := db.run, db.actions;
      ok := MarkAndMutate(request, queue, i, MarkAttempts(mark));
      Store.ContinuesOn(run0, actions0, run1, actions1, db.run, db.actions);
      OnlyTouchesOn(history0, history1, db.history, {});
      if ok {
        PassedIsClear(db.run, db.actions, request, queue, i);
      }
    }

    method MarkAndMutate(request: Request, ghost queue: seq<Request>, i: nat, attempts: nat) returns (ok: bool)
      requires db.Valid() && i < |TablesOf(request.legacyInstallation)| && db.worker == Marking(request, queue, i, attempts)
      modifies db
      ensures db.Valid() && Continues(old(db.run), old(db.actions), db.run, db.actions)
      ensures db.worker == if ok then NextTable(request, queue, i + 1) else Closing(request, queue, false)
      ensures OnlyTouches(old(db.history), db.history, {})
      ensures db.reliable ==> ok
    {
      hide *;
      ghost var run0, actions0, history0 := db.run, db.actions, db.history;
      Pause();
      ghost var run1, actions1 := db.run, db.actions;
      ok := MarkProcessing(request, queue, i, attempts);
      Store.ContinuesOn(run0, actions0, run1, actions1, db.run, db.actions);
      if !ok {
        return;
      }
      ghost var history1 := db.history;
      run1, actions1 := db.run, db.actions;
      Pause();
      Store.ContinuesOn(run0, actions0, run1, actions1, db.run, db.actions);
      OnlyTouchesOn(history0, history1, db.history, {});
      history1, run1, actions1 := db.history, db.run, db.actions;
      ok := AlterDelete(request, queue, i, NextAttempt(attempts));
      Store.ContinuesOn(run0, actions0, run1, actions1, db.run, db.actions);
      OnlyTouchesOn(history0, history1, db.history, {});
      history1, run1, actions1 := db.history, db.run, db.actions;
      Pause();
      Store.ContinuesOn(run0, actions0, run1, actions1, db.run, db.actions);
      OnlyTouchesOn(history0, history1, db.history, {});
      run1, actions1 := db.run, db.actions;
      if ok {
        ok := MarkCompleted(request, queue, i, NextAttempt(attempts));
      } else {
        MarkRetry(request, queue, i, NextAttempt(attempts));
      }
      Store.ContinuesOn(run0, actions0, run1, actions1, db.run, db.actions);
    }

    /** Deletes the request's scope table by table, and stops at the first failure. */
    method DeleteTelemetryRequest(request: Request, ghost queue: seq<Request>) returns (ok: bool)
      requires db.Valid() && db.worker == NextTable(request, queue, 0) && request.action == Delete
      modifies db
      ensures db.Valid() && Continues(old(db.run), old(db.actions), db.run, db.actions)
      ensures db.worker == Closing(request, queue, ok)
      ensures ok ==> AllClear(db.State(), request) && Gone(db.State(), request.scope, request.legacyInstallation)
      ensures OnlyTouches(old(db.history), db.history, {})
      ensures db.reliable ==> ok
    {
      hide Init, Next, Gone;
      ghost var run0, actions0, history0 := db.run, db.actions, db.history;
      var tables := TablesOf(request.legacyInstallation);
      Store.ContinuesSame(run0, actions0);
      TouchesItself(history0);
      for i := 0 to |tables|
        invariant db.Valid() && Continues(run0, actions0, db.run, db.actions)
        invariant db.worker == NextTable(request, queue, i)
        invariant OnlyTouches(history0, db.history, {})
      {
        ghost var run1, actions1, history1 := db.run, db.actions, db.history;
        ok := DeleteTelemetryTable(request, queue, i);
        Store.ContinuesOn(run0, actions0, run1, actions1, db.run, db.actions);
        OnlyTouchesOn(history0, history1, db.history, {});
        if !ok {
          return;
        }
      }
      ok := true;
      ClosedIsClear(db.run, db.actions);
      ClosedIsGone(db.run, db.actions);
    }
  }

  /** The table holds nothing the request deletes. */
  ghost predicate IsClear(s: Sys, request: Request, table: Table)
  {
    Clear(s.ledger, s.registry, s.streams, s.v1Rows, request.scope, request.legacyInstallation, table)
  }

  /** None of the request's tables holds a row it deletes. */
  ghost predicate AllClear(s: Sys, request: Request)
  {
    forall t | t in TablesOf(request.legacyInstallation) :: IsClear(s, request, t)
  }

  lemma DoneTableIsClear(s: Sys, request: Request, table: Table)
    requires Inv(s) && Current(request, s.history) && TableDone(s.marks, ProgressKey(request.key, table))
    ensures IsClear(s, request, table)
  {
    hide ChainOk, MarksOk, CompletedIsDone, WritersOk, DeleterOk, Clear, TableDone;
    CurrentAgrees(s.history, s.suppressions, s.maxAttempts, request);
  }

  /** When the deletion loop is through, all tables are clear at once, the first ones still. */
  lemma ClosedIsClear(run: seq<Sys>, actions: seq<Action>)
    requires |run| == |actions| + 1 && IsRun(run, actions)
    ensures var s := run[|run| - 1];
            s.worker.Closing? && s.worker.succeeded && s.worker.request.action == Delete ==> AllClear(s, s.worker.request)
  {
    hide IsRun, LedgerOk, ChainOk, ErasureOk, WritersOk, HistoryOk, MutationsOk, QueueOk, TableDone, IsClear;
    RunInv(run, actions, |run| - 1);
    var s := run[|run| - 1];
    if s.worker.Closing? && s.worker.succeeded && s.worker.request.action == Delete {
      forall t | t in TablesOf(s.worker.request.legacyInstallation)
        ensures IsClear(s, s.worker.request, t)
      {
        DoneTableIsClear(s, s.worker.request, t);
      }
    }
  }

  /** So nothing is left of the subject, person or organisation of the request, or of its installation. */
  lemma ClosedIsGone(run: seq<Sys>, actions: seq<Action>)
    requires |run| == |actions| + 1 && IsRun(run, actions)
    ensures var s := run[|run| - 1];
            s.worker.Closing? && s.worker.succeeded && s.worker.request.action == Delete ==>
              Gone(s, s.worker.request.scope, s.worker.request.legacyInstallation)
  {
    hide IsRun, LedgerOk, ChainOk, ErasureOk, WritersOk, HistoryOk, MutationsOk, QueueOk, AllDone, Gone, Clear, TablesOf;
    RunInv(run, actions, |run| - 1);
    var s := run[|run| - 1];
    if s.worker.Closing? && s.worker.succeeded && s.worker.request.action == Delete {
      ClosedIsClear(run, actions);
      LastIsFound(s.history, s.suppressions, s.maxAttempts, s.worker.request.key);
      StoredKeysAreGiven(s.history, s.suppressions, s.maxAttempts, Last(s.history[s.worker.request.key]));
      assert forall t | t in TablesOf(s.worker.request.legacyInstallation) :: IsClear(s, s.worker.request, t);
      ClearIsGone(s, s.worker.request.scope, s.worker.request.legacyInstallation);
    }
  }

  lemma LoopDeletes(run: seq<Sys>, actions: seq<Action>)
    requires |run| == |actions| + 1 && IsRun(run, actions)
    ensures run[|run| - 1].worker.Deleting? ==> run[|run| - 1].worker.request.action == Delete
  {
    hide IsRun, ChainOk, ErasureOk, WritersOk, HistoryOk, MutationsOk, QueueOk, HoldsClaim, TableDone;
    RunInv(run, actions, |run| - 1);
  }

  /** Behind a table, the loop leaves it and all earlier ones clear. */
  lemma PassedIsClear(run: seq<Sys>, actions: seq<Action>, request: Request, queue: seq<Request>, i: nat)
    requires |run| == |actions| + 1 && IsRun(run, actions) && request.action == Delete && i < |TablesOf(request.legacyInstallation)|
    requires run[|run| - 1].worker == NextTable(request, queue, i + 1)
    ensures forall j | 0 <= j <= i :: IsClear(run[|run| - 1], request, CurrentTable(request, j))
  {
    hide IsRun, ChainOk, ErasureOk, WritersOk, HistoryOk, MutationsOk, QueueOk, TableDone, MarkedBelow, TablesOf;
    RunInv(run, actions, |run| - 1);
    var s := run[|run| - 1];
    forall j | 0 <= j <= i
      ensures IsClear(s, request, CurrentTable(request, j))
    {
      assert CurrentTable(request, j) in TablesOf(request.legacyInstallation);
      DoneTableIsClear(s, request, CurrentTable(request, j));
    }
  }

  /** An acknowledged mutation has cleared its table. */
  lemma MutatedIsClear(run: seq<Sys>, actions: seq<Action>)
    requires |run| == |actions| + 1 && IsRun(run, actions)
    ensures var s := run[|run| - 1];
            s.worker.Mutated? ==> AtTable(s.worker) && IsClear(s, s.worker.request, CurrentTable(s.worker.request, s.worker.table))
  {
    hide IsRun, LedgerOk, ChainOk, ErasureOk, WritersOk, HistoryOk, MutationsOk, QueueOk, HoldsClaim, TableDone, TablesOf,
         Clear, InProgress;
    RunInv(run, actions, |run| - 1);
  }

  /** The mutation the worker waits for is the one it submitted. */
  lemma SubmittedIsKept(run: seq<Sys>, actions: seq<Action>)
    requires |run| == |actions| + 1 && IsRun(run, actions)
    ensures var s := run[|run| - 1];
            s.worker.Mutating? ==> s.worker.mutation < |s.mutations| && HasTable(s.mutations[s.worker.mutation])
                                   && IsFor(s.mutations[s.worker.mutation], s.worker.request, s.worker.table)
  {
    hide IsRun, LedgerOk, ChainOk, HistoryOk, ErasureOk, WritersOk, WorkerOk, Covers, IsDeleting, TableDone, HasTable;
    RunInv(run, actions, |run| - 1);
    var s := run[|run| - 1];
    assert s.worker.Mutating? ==> s.mutations[s.worker.mutation] in s.mutations;
  }

  lemma InHistory(history: map<RequestKey, seq<SuppressionRow>>, history': map<RequestKey, seq<SuppressionRow>>, key: RequestKey)
    requires OnlyTouches(history, history', {}) && key in history
    ensures key in history' && history'[key] == history[key]
  {
  }

  /** The states the worker's look at a listed request leads to. */
  lemma ReadsClaim(s: Sys, request: Request, queue: seq<Request>, now: int, row: SuppressionRow, s': Sys)
    requires s.worker == Listed([request] + queue) && FinalRead(s.suppressions, request.key, Option.Some(row))
    requires s' == s.(worker := if Due(row, now) then Claiming(request, queue, row.data.attempts, now) else Listed(queue))
    ensures Next(s, ByWorker(WorkerAction.ReadClaim(now, row)), s')
  {
    hide FinalRead, Due;
  }

  lemma Skips(s: Sys, request: Request, queue: seq<Request>, s': Sys)
    requires s.worker == Listed([request] + queue) && s' == s.(worker := Listed(queue))
    ensures Next(s, ByWorker(SkipRequest), s')
  {
  }

  lemma RequestIsFound(run: seq<Sys>, actions: seq<Action>, key: RequestKey, found: Option<SuppressionRow>)
    requires |run| == |actions| + 1 && IsRun(run, actions) && FinalRead(run[|run| - 1].suppressions, key, found)
    ensures found.Some? <==> key in run[|run| - 1].history
    ensures found.Some? ==> run[|run| - 1].history[key] != [] && found.value == Last(run[|run| - 1].history[key])
  {
    hide *;
    FinalIsLastStored(run, actions, |run| - 1, key, found);
  }

  /** The count that the claim read back is the count of the worker's copy. */
  lemma ClaimCounts(run: seq<Sys>, actions: seq<Action>)
    requires |run| == |actions| + 1 && IsRun(run, actions) && run[|run| - 1].worker.Claiming?
    ensures run[|run| - 1].worker.attempts == run[|run| - 1].worker.request.attempts
  {
    hide IsRun, ChainOk, HistoryOk, ErasureOk, WritersOk, QueueOk;
    RunInv(run, actions, |run| - 1);
  }

  lemma NothingQueued(history: map<RequestKey, seq<SuppressionRow>>)
    ensures QueueOk([], history)
  {
  }

  /** The worker's copies agree with what is stored. */
  lemma QueueIsCurrent(run: seq<Sys>, actions: seq<Action>, queue: seq<Request>)
    requires |run| == |actions| + 1 && IsRun(run, actions) && run[|run| - 1].worker == Listed(queue)
    ensures QueueOk(queue, run[|run| - 1].history)
  {
    hide IsRun, ChainOk, HistoryOk, ErasureOk, WritersOk, QueueOk;
    RunInv(run, actions, |run| - 1);
  }

  ghost predicate InOrder(rows: seq<SuppressionRow>)
  {
    forall i, j | 0 <= i < j < |rows| :: rows[i].data.requestedAt <= rows[j].data.requestedAt
  }

  ghost predicate KeysDiffer(rows: seq<SuppressionRow>)
  {
    forall i, j | 0 <= i < j < |rows| :: rows[i].key != rows[j].key
  }

  ghost predicate HasKey(rows: seq<SuppressionRow>, key: RequestKey)
  {
    exists i :: 0 <= i < |rows| && rows[i].key == key
  }

  /** The row is not among the first `limit` because none of those was requested later. */
  ghost predicate LeftOut(rows: seq<SuppressionRow>, limit: nat, r: SuppressionRow)
  {
    |rows| == limit && forall i | 0 <= i < |rows| :: rows[i].data.requestedAt <= r.data.requestedAt
  }

  /** Of the first `i` rows, every newest one that is due has its key in the list. */
  ghost predicate CoversDue(table: seq<SuppressionRow>, i: nat, due: seq<SuppressionRow>, now: int)
  {
    i <= |table| && forall r | r in table[..i] && IsNewest(table, r) && Due(r, now) :: HasKey(due, r.key)
  }

  lemma MemberHasKey(rows: seq<SuppressionRow>, r: SuppressionRow)
    requires r in rows
    ensures HasKey(rows, r.key)
  {
    var i :| 0 <= i < |rows| && rows[i] == r;
    assert rows[i].key == r.key;
  }

  lemma CoversOneMore(table: seq<SuppressionRow>, i: nat, due: seq<SuppressionRow>, due': seq<SuppressionRow>, now: int)
    requires CoversDue(table, i, due, now) && i < |table| && forall r | r in due :: r in due'
    requires IsNewest(table, table[i]) && Due(table[i], now) ==> HasKey(due', table[i].key)
    ensures CoversDue(table, i + 1, due', now)
  {
    hide IsNewest, Due;
    forall r | r in table[..i + 1] && IsNewest(table, r) && Due(r, now)
      ensures HasKey(due', r.key)
    {
      if r in table[..i] {
        var j :| 0 <= j < |due| && due[j].key == r.key;
        MemberHasKey(due', due[j]);
      } else {
        assert r == table[i];
      }
    }
  }

  /** A row due is among the first `limit` of the list, or has to wait for them. */
  lemma CutAtLimit(table: seq<SuppressionRow>, due: seq<SuppressionRow>, limit: nat, now: int, r: SuppressionRow)
    requires CoversDue(table, |table|, due, now) && InOrder(due) && forall d | d in due :: IsNewest(table, d)
    requires IsNewest(table, r) && Due(r, now)
    ensures var rows := if |due| <= limit then due else due[..limit];
            HasKey(rows, r.key) || exists d :: IsNewest(table, d) && d.key == r.key && LeftOut(rows, limit, d)
  {
    assert table[..|table|] == table;
    hide Due;
    assert r in table;
    var i :| 0 <= i < |due| && due[i].key == r.key;
    hide IsNewest;
    if |due| > limit {
      if i < limit {
        assert due[..limit][i].key == r.key;
      } else {
        assert due[i] in due && LeftOut(due[..limit], limit, due[i]);
      }
    }
  }

  /** `SELECT ... FINAL WHERE` the request is due, `ORDER BY requested_at LIMIT limit`. */
  method SelectDue(table: seq<SuppressionRow>, limit: nat, now: int) returns (rows: seq<SuppressionRow>)
    ensures forall r | r in rows :: IsNewest(table, r) && Due(r, now)
    ensures KeysDiffer(rows) && InOrder(rows) && |rows| <= limit
    ensures forall r | IsNewest(table, r) && Due(r, now) ::
              HasKey(rows, r.key) || exists d :: IsNewest(table, d) && d.key == r.key && LeftOut(rows, limit, d)
  {
    hide Due, IsNewest, CoversDue, HasKey, LeftOut;
    var due: seq<SuppressionRow> := [];
    NothingCovered(table, now);
    for i := 0 to |table|
      invariant forall r | r in due :: IsNewest(table, r) && Due(r, now)
      invariant KeysDiffer(due) && InOrder(due)
      invariant CoversDue(table, i, due, now)
    {
      ghost var before := due;
      if IsNewest(table, table[i]) && Due(table[i], now) {
        if r :| r in due && r.key == table[i].key {
          MemberHasKey(due, r);
        } else {
          due := InsertInOrder(due, table[i]);
          MemberHasKey(due, table[i]);
        }
      }
      CoversOneMore(table, i, before, due, now);
    }
    rows := if |due| <= limit then due else due[..limit];
    forall r | IsNewest(table, r) && Due(r, now)
      ensures HasKey(rows, r.key) || exists d :: IsNewest(table, d) && d.key == r.key && LeftOut(rows, limit, d)
    {
      CutAtLimit(table, due, limit, now, r);
    }
  }

  lemma NothingCovered(table: seq<SuppressionRow>, now: int)
    ensures CoversDue(table, 0, [], now)
  {
  }

  /** Puts a row behind all that were not requested later. */
  method InsertInOrder(rows: seq<SuppressionRow>, row: SuppressionRow) returns (longer: seq<SuppressionRow>)
    requires InOrder(rows) && KeysDiffer(rows) && forall r | r in rows :: r.key != row.key
    ensures InOrder(longer) && KeysDiffer(longer)
    ensures forall r :: r in longer <==> r in rows || r == row
  {
    hide *;
    var at := |rows|;
    while at > 0 && rows[at - 1].data.requestedAt > row.data.requestedAt
      invariant 0 <= at <= |rows|
      invariant forall i | at <= i < |rows| :: rows[i].data.requestedAt > row.data.requestedAt
    {
      at := at - 1;
    }
    longer := rows[..at] + [row] + rows[at..];
    InsertedDiffers(rows, at, row);
    InsertedIsInOrder(rows, at, row);
  }

  lemma InsertedDiffers(rows: seq<SuppressionRow>, at: nat, row: SuppressionRow)
    requires KeysDiffer(rows) && at <= |rows| && forall r | r in rows :: r.key != row.key
    ensures KeysDiffer(rows[..at] + [row] + rows[at..])
    ensures forall r :: r in rows[..at] + [row] + rows[at..] <==> r in rows || r == row
  {
    assert rows == rows[..at] + rows[at..];
  }

  lemma InsertedIsInOrder(rows: seq<SuppressionRow>, at: nat, row: SuppressionRow)
    requires InOrder(rows) && at <= |rows|
    requires at > 0 ==> rows[at - 1].data.requestedAt <= row.data.requestedAt
    requires forall i | at <= i < |rows| :: rows[i].data.requestedAt > row.data.requestedAt
    ensures InOrder(rows[..at] + [row] + rows[at..])
  {
    assert forall i | 0 <= i < at :: rows[i].data.requestedAt <= row.data.requestedAt;
  }

  /** The request is listed, or the list is full of requests that were not made later. */
  ghost predicate ListedOrLater(requests: seq<Request>, limit: nat, r: SuppressionRow)
  {
    || (exists q :: q in requests && q.key == r.key)
    || (|requests| == limit && forall q | q in requests :: q.requestedAt <= r.data.requestedAt)
  }

  lemma DueIsListed(run: seq<Sys>, actions: seq<Action>, rows: seq<SuppressionRow>, limit: nat, r: SuppressionRow)
    requires |run| == |actions| + 1 && IsRun(run, actions) && IsNewest(run[|run| - 1].suppressions, r)
    requires HasKey(rows, r.key)
          || exists d :: IsNewest(run[|run| - 1].suppressions, d) && d.key == r.key && LeftOut(rows, limit, d)
    ensures ListedOrLater(Snapshots(rows), limit, r)
  {
    hide IsRun, IsNewest;
    var requests := Snapshots(rows);
    if i :| 0 <= i < |rows| && rows[i].key == r.key {
      assert requests[i] in requests;
    } else {
      var d :| IsNewest(run[|run| - 1].suppressions, d) && d.key == r.key && LeftOut(rows, limit, d);
      OneNewest(run, actions, d, r);
      assert forall i | 0 <= i < |rows| :: requests[i].requestedAt == rows[i].data.requestedAt;
    }
  }

  /** The last row stored for the request says that it waits for a worker. */
  ghost predicate IsOpen(history: map<RequestKey, seq<SuppressionRow>>, key: RequestKey, now: int)
  {
    key in history && history[key] != [] && WaitsForWorker(Last(history[key]).data, now)
  }

  lemma OnlyOpenListed(run: seq<Sys>, actions: seq<Action>, rows: seq<SuppressionRow>, now: int)
    requires |run| == |actions| + 1 && IsRun(run, actions)
    requires forall r | r in rows :: IsNewest(run[|run| - 1].suppressions, r) && Due(r, now)
    ensures forall q | q in Snapshots(rows) :: IsOpen(run[|run| - 1].history, q.key, now)
  {
    hide IsRun, Due, WaitsForWorker;
    forall q | q in Snapshots(rows)
      ensures IsOpen(run[|run| - 1].history, q.key, now)
    {
      var i :| 0 <= i < |rows| && Snapshots(rows)[i] == q;
      assert rows[i] in rows;
      FinalIsLastStored(run, actions, |run| - 1, rows[i].key, Some(rows[i]));
      DueIsWaiting(rows[i], now);
    }
  }

  /** Of the requests that wait for a worker, none is left out but for earlier ones. */
  ghost predicate ListsOpen(history: map<RequestKey, seq<SuppressionRow>>, requests: seq<Request>, limit: nat, now: int)
  {
    forall k | IsOpen(history, k, now) :: ListedOrLater(requests, limit, Last(history[k]))
  }

  lemma OpenIsListed(run: seq<Sys>, actions: seq<Action>, requests: seq<Request>, limit: nat, now: int)
    requires |run| == |actions| + 1 && IsRun(run, actions)
    requires forall r | IsNewest(run[|run| - 1].suppressions, r) && WaitsForWorker(r.data, now) :: ListedOrLater(requests, limit, r)
    ensures ListsOpen(run[|run| - 1].history, requests, limit, now)
  {
    hide IsRun, LedgerOk, ChainOk, HistoryOk, ErasureOk, WritersOk, DeleterOk, WaitsForWorker, ListedOrLater;
    RunInv(run, actions, |run| - 1);
    var s := run[|run| - 1];
    forall k | IsOpen(s.history, k, now)
      ensures ListedOrLater(requests, limit, Last(s.history[k]))
    {
      LastIsFound(s.history, s.suppressions, s.maxAttempts, k);
    }
  }

  /** FINAL has one row for a request. */
  lemma OneNewest(run: seq<Sys>, actions: seq<Action>, a: SuppressionRow, b: SuppressionRow)
    requires |run| == |actions| + 1 && IsRun(run, actions) && a.key == b.key
    requires IsNewest(run[|run| - 1].suppressions, a) && IsNewest(run[|run| - 1].suppressions, b)
    ensures a == b
  {
    hide IsRun;
    FinalIsLastStored(run, actions, |run| - 1, a.key, Some(a));
    FinalIsLastStored(run, actions, |run| - 1, a.key, Some(b));
  }
  /** What the worker reports as completed is gone. */
  lemma CompletedIsErased(run: seq<Sys>, actions: seq<Action>, i: nat, key: RequestKey)
    requires IsRun(run, actions) && i < |run| && IsCompleted(run[i].history, key)
    ensures Last(run[i].history[key]).data.action == Delete ==> Erased(run[i], Last(run[i].history[key]))
  {
    hide IsRun, ChainOk, ErasureOk, WritersOk, DeleterOk, HistoryOk, Erased;
    RunInv(run, actions, i);
    if Last(run[i].history[key]).data.action == Delete {
      LastIsFound(run[i].history, run[i].suppressions, run[i].maxAttempts, key);
      StoredKeysAreGiven(run[i].history, run[i].suppressions, run[i].maxAttempts, Last(run[i].history[key]));
      DoneIsErased(run[i], Last(run[i].history[key]));
    }
  }

  // ---------- The loop ----------

  /** The stored status of the request is `completed`. */
  ghost predicate IsCompleted(history: map<RequestKey, seq<SuppressionRow>>, key: RequestKey)
  {
    key in history && history[key] != [] && Last(history[key]).data.status == PrivacyStatus.Completed
  }

  /** How the turn of a listed request went: it was not due any more, a statement failed, or it was carried out and its outcome stored. */
  datatype Turn = Skipped | Broken | Done(succeeded: bool)

  /** The rows of the request before and after its turn. */
  ghost predicate TurnRows(
    turn: Turn, request: Request, maxAttempts: nat, rows: seq<SuppressionRow>, rows': seq<SuppressionRow>)
  {
    match turn
    case Skipped => rows' == rows
    case Broken =>
      || rows' == rows
      || ClaimStored(rows, rows', request)
      || exists succeeded :: PassStored(rows, rows', request, succeeded, maxAttempts)
    case Done(succeeded) => PassStored(rows, rows', request, succeeded, maxAttempts)
  }

  ghost predicate TurnOk(
    turn: Turn, request: Request, maxAttempts: nat, before: map<RequestKey, seq<SuppressionRow>>, after: map<RequestKey, seq<SuppressionRow>>)
  {
    && request.key in before && request.key in after
    && TurnRows(turn, request, maxAttempts, before[request.key], after[request.key])
  }

  predicate IsFailure(turn: Turn)
  {
    turn.Broken? || turn == Done(false)
  }

  /** The keys of the requests whose turns failed, in the order of the list. */
  function FailedKeys(requests: seq<Request>, turns: seq<Turn>): (keys: seq<RequestKey>)
    requires |turns| <= |requests|
    ensures keys == [] <==> forall i | 0 <= i < |turns| :: !IsFailure(turns[i])
    decreases |turns|
  {
    if turns == [] then []
    else
      var last := |turns| - 1;
      FailedKeys(requests, turns[..last]) + if IsFailure(turns[last]) then [requests[last].key] else []
  }

  /** Every request that is not settled has room for one more claim. */
  ghost predicate HasRoom(history: map<RequestKey, seq<SuppressionRow>>)
  {
    forall k | k in history :: RoomFor(history[k])
  }

  ghost function KeysOf(requests: seq<Request>): set<RequestKey>
  {
    set q | q in requests :: q.key
  }

  /** Half-way through a pass: the first requests have had their turns, the others are as listed and can be claimed. */
  ghost predicate PassOk(
    before: map<RequestKey, seq<SuppressionRow>>, history: map<RequestKey, seq<SuppressionRow>>, requests: seq<Request>,
    turns: seq<Turn>, maxAttempts: nat)
  {
    && |turns| <= |requests|
    && (forall j, k | 0 <= j < k < |requests| :: requests[j].key != requests[k].key)
    && (forall j | 0 <= j < |turns| :: TurnOk(turns[j], requests[j], maxAttempts, before, history))
    && (forall j | |turns| <= j < |requests| :: IsWaiting(before, history, requests[j]))
  }

  ghost predicate IsWaiting(before: map<RequestKey, seq<SuppressionRow>>, history: map<RequestKey, seq<SuppressionRow>>, request: Request)
  {
    && request.key in before && request.key in history && history[request.key] == before[request.key]
    && RoomFor(history[request.key])
  }

  lemma RoomStays(history: map<RequestKey, seq<SuppressionRow>>, history': map<RequestKey, seq<SuppressionRow>>)
    requires HasRoom(history) && OnlyTouches(history, history', {})
    ensures HasRoom(history')
  {
  }

  lemma StartPass(history: map<RequestKey, seq<SuppressionRow>>, requests: seq<Request>, maxAttempts: nat)
    requires HasRoom(history) && QueueOk(requests, history)
    ensures PassOk(history, history, requests, [], maxAttempts)
    ensures KeysOf(requests) <= history.Keys
  {
    forall j | 0 <= j < |requests|
      ensures requests[j].key in history && RoomFor(history[requests[j].key])
    {
      assert requests[j] in requests && Current(requests[j], history);
    }
  }

  /** The turn of one request leaves the others alone. */
  lemma PassGoesOn(
    before: map<RequestKey, seq<SuppressionRow>>, history: map<RequestKey, seq<SuppressionRow>>,
    history': map<RequestKey, seq<SuppressionRow>>, requests: seq<Request>, turns: seq<Turn>, turn: Turn, maxAttempts: nat)
    requires PassOk(before, history, requests, turns, maxAttempts) && |turns| < |requests|
    requires OnlyTouches(history, history', {requests[|turns|].key})
    requires TurnOk(turn, requests[|turns|], maxAttempts, history, history')
    ensures PassOk(before, history', requests, turns + [turn], maxAttempts)
  {
    hide TurnRows;
    var i := |turns|;
    assert IsWaiting(before, history, requests[i]);
    forall j | 0 <= j < i
      ensures TurnOk((turns + [turn])[j], requests[j], maxAttempts, before, history')
    {
      assert TurnOk(turns[j], requests[j], maxAttempts, before, history) && requests[j].key != requests[i].key;
    }
    forall j | i < j < |requests|
      ensures IsWaiting(before, history', requests[j])
    {
      assert IsWaiting(before, history, requests[j]) && requests[j].key != requests[i].key;
    }
  }

  lemma TurnOf(
    before: map<RequestKey, seq<SuppressionRow>>, history: map<RequestKey, seq<SuppressionRow>>, requests: seq<Request>,
    turns: seq<Turn>, maxAttempts: nat)
    requires PassOk(before, history, requests, turns, maxAttempts) && |turns| < |requests|
    ensures requests[|turns|].key in history && RoomFor(history[requests[|turns|].key])
  {
    assert IsWaiting(before, history, requests[|turns|]);
  }

  lemma PassIsOver(
    before: map<RequestKey, seq<SuppressionRow>>, history: map<RequestKey, seq<SuppressionRow>>, requests: seq<Request>,
    turns: seq<Turn>, maxAttempts: nat)
    requires PassOk(before, history, requests, turns, maxAttempts) && |turns| == |requests|
    ensures forall i | 0 <= i < |requests| :: TurnOk(turns[i], requests[i], maxAttempts, before, history)
  {
  }

  lemma FailuresGrow(requests: seq<Request>, turns: seq<Turn>, turn: Turn)
    requires |turns| < |requests|
    ensures FailedKeys(requests, turns + [turn]) ==
              FailedKeys(requests, turns) + if IsFailure(turn) then [requests[|turns|].key] else []
  {
    assert (turns + [turn])[..|turns|] == turns;
  }

  /**
   A turn that was carried out uses up one of the `maxAttempts` claims and
   leaves the request completed, in retry, or failed when none is left.
   */
  lemma TurnDecreases(
    run: seq<Sys>, actions: seq<Action>, request: Request, before: map<RequestKey, seq<SuppressionRow>>, turn: Turn, maxAttempts: nat)
    requires |run| == |actions| + 1 && IsRun(run, actions) && maxAttempts == run[|run| - 1].maxAttempts
    requires turn.Done? && TurnOk(turn, request, maxAttempts, before, run[|run| - 1].history)
    ensures var rows, rows' := before[request.key], run[|run| - 1].history[request.key];
            && rows' != []
            && maxAttempts - Claims(rows') == maxAttempts - Claims(rows) - 1
            && Last(rows').data.status ==
                 if turn.succeeded then PrivacyStatus.Completed else if Claims(rows') >= maxAttempts then Failed else Retry
  {
    hide IsRun, ChainOk, ErasureOk, WritersOk, DeleterOk, WellFormed, PassStored, Claims;
    RunInv(run, actions, |run| - 1);
    PassDecreases(before[request.key], run[|run| - 1].history[request.key], request.key, maxAttempts, request, turn.succeeded);
  }

  /** A claim and then its outcome make a pass. */
  lemma PassIsStored(
    rows: seq<SuppressionRow>, claimed: seq<SuppressionRow>, rows': seq<SuppressionRow>, request: Request, succeeded: bool, maxAttempts: nat)
    requires ClaimStored(rows, claimed, request) && OutcomeStored(claimed, rows', Claimed(request), succeeded, maxAttempts)
    ensures PassStored(rows, rows', request, succeeded, maxAttempts)
  {
  }

  lemma TouchesOneMore(
    h: map<RequestKey, seq<SuppressionRow>>, h': map<RequestKey, seq<SuppressionRow>>, h'': map<RequestKey, seq<SuppressionRow>>,
    requests: seq<Request>, i: nat)
    requires i < |requests| && KeysOf(requests) <= h.Keys
    requires OnlyTouches(h, h', KeysOf(requests[..i])) && OnlyTouches(h', h'', {requests[i].key})
    ensures OnlyTouches(h, h'', KeysOf(requests[..i + 1]))
  {
    var keys := KeysOf(requests[..i + 1]);
    assert requests[i] in requests[..i + 1];
    assert {requests[i].key} <= keys;
    assert KeysOf(requests[..i]) <= keys by {
      assert forall q | q in requests[..i] :: q in requests[..i + 1];
    }
    assert keys <= h.Keys by {
      assert forall q | q in requests[..i + 1] :: q in requests && q.key in KeysOf(requests);
    }
    TouchesMore(h, h', KeysOf(requests[..i]), keys);
    TouchesMore(h', h'', {requests[i].key}, keys);
    OnlyTouchesOn(h, h', h'', keys);
  }

  /** No statement failed, and only unsupported requests did. */
  ghost predicate Healthy(requests: seq<Request>, turns: seq<Turn>)
  {
    && |turns| <= |requests|
    && forall i | 0 <= i < |turns| :: !turns[i].Broken? && (requests[i].action != Unsupported ==> !IsFailure(turns[i]))
  }

  lemma StaysHealthy(requests: seq<Request>, turns: seq<Turn>, turn: Turn)
    requires Healthy(requests, turns) && |turns| < |requests|
    requires !turn.Broken? && (requests[|turns|].action != Unsupported ==> !IsFailure(turn))
    ensures Healthy(requests, turns + [turn])
  {
  }

  lemma HealthyHasNoFailures(requests: seq<Request>, turns: seq<Turn>)
    requires Healthy(requests, turns) && forall q | q in requests :: q.action != Unsupported
    ensures FailedKeys(requests, turns) == []
  {
    forall i | 0 <= i < |turns|
      ensures !IsFailure(turns[i])
    {
      assert requests[i] in requests;
    }
  }

  lemma NoTurns(requests: seq<Request>)
    ensures KeysOf(requests[..0]) == {} && KeysOf([]) == {} && Healthy(requests, []) && FailedKeys(requests, []) == []
  {
  }

  class Worker {
    const repository: PrivacyStore
    const limit: nat
    const maxAttempts: nat

    constructor (repository: PrivacyStore, limit: nat, maxAttempts: nat)
      requires 1 <= limit <= 1000 && 1 <= maxAttempts <= 100
      ensures this.repository == repository && this.limit == limit && this.maxAttempts == maxAttempts
    {
      this.repository, this.limit, this.maxAttempts := repository, limit, maxAttempts;
    }

    /** One listed request: claim it, carry it out, store the outcome. */
    method Process(request: Request, ghost queue: seq<Request>) returns (ok: bool, ghost turn: Turn)
      requires repository.db.Valid() && repository.db.worker == Listed([request] + queue)
      requires maxAttempts == repository.db.maxAttempts
      requires request.key in repository.db.history && RoomFor(repository.db.history[request.key])
      modifies repository.db
      ensures repository.db.Valid() && repository.db.worker == Listed(queue)
      ensures Continues(old(repository.db.run), old(repository.db.actions), repository.db.run, repository.db.actions)
      ensures OnlyTouches(old(repository.db.history), repository.db.history, {request.key})
      ensures TurnOk(turn, request, maxAttempts, old(repository.db.history), repository.db.history)
      ensures ok <==> !IsFailure(turn)
      ensures repository.db.reliable ==> !turn.Broken? && (request.action != Unsupported ==> ok)
    {
      hide IsRun, Init, Next, CounterFits, Inv, AtomicStep, Accepted, Claims, Continues, OnlyTouches, NextAttempt, TablesOf, AllClear,
           NextTable, Dispatch, ClaimStored, OutcomeStored, PassStored;
      var db := repository.db;
      ghost var run0, actions0, history0 := db.run, db.actions, db.history;
      var claimed;
      ghost var at;
      ok, claimed, at := repository.ClaimPrivacyRequest(request, queue);
      turn := if ok then Skipped else Broken;
      if !ok || !claimed {
        return;
      }
      ghost var run1, actions1, history1 := db.run, db.actions, db.history;
      var mine := request.(attempts := NextAttempt(request.attempts));
      ok := CarryOut(mine, queue);
      Store.ContinuesOn(run0, actions0, run1, actions1, db.run, db.actions);
      InHistory(history1, db.history, request.key);
      TouchesMore(history1, db.history, {}, {request.key});
      OnlyTouchesOn(history0, history1, db.history, {request.key});
      ghost var history2, succeeded := db.history, ok;
      run1, actions1 := db.run, db.actions;
      var stored;
      stored, at := repository.WriteOutcome(mine, queue, ok, maxAttempts);
      Store.ContinuesOn(run0, actions0, run1, actions1, db.run, db.actions);
      OnlyTouchesOn(history0, history2, db.history, {request.key});
      if stored || db.history[request.key] != history2[request.key] {
        PassIsStored(history0[request.key], history1[request.key], db.history[request.key], request, succeeded, maxAttempts);
      }
      turn := if stored then Done(succeeded) else Broken;
      ok := ok && stored;
    }

    method CarryOut(request: Request, ghost queue: seq<Request>) returns (ok: bool)
      requires repository.db.Valid() && repository.db.worker == Dispatch(request, queue)
      modifies repository.db
      ensures repository.db.Valid() && repository.db.worker == Closing(request, queue, ok)
      ensures Continues(old(repository.db.run), old(repository.db.actions), repository.db.run, repository.db.actions)
      ensures OnlyTouches(old(repository.db.history), repository.db.history, {})
      ensures ok && request.action == PrivacyAction.Delete ==>
                AllClear(repository.db.State(), request) && Gone(repository.db.State(), request.scope, request.legacyInstallation)
      ensures repository.db.reliable && request.action != Unsupported ==> ok
    {
      hide Init, Next, NextTable, AllClear, Gone;
      Store.ContinuesSame(repository.db.run, repository.db.actions);
      TouchesItself(repository.db.history);
      match request.action {
        case OptOut => ok := true;  // the active suppression is persisted already
        case Delete => ok := repository.DeleteTelemetryRequest(request, queue);
        case Unsupported => ok := false;
      }
    }

    /**
     One pass over the requests that are due.  The error is nil just when the
     list came back and no turn failed.
     */
    method RunOnce() returns (listed: bool, requests: seq<Request>, failures: seq<RequestKey>,
                              ghost before: map<RequestKey, seq<SuppressionRow>>, ghost turns: seq<Turn>, ghost at: int)
      requires repository.db.Valid() && (repository.db.worker == Resting || repository.db.worker == Listed([]))
      requires maxAttempts == repository.db.maxAttempts && HasRoom(repository.db.history)
      modifies repository.db
      ensures repository.db.Valid()
      ensures Continues(old(repository.db.run), old(repository.db.actions), repository.db.run, repository.db.actions)
      ensures repository.db.worker == if listed then Listed([]) else old(repository.db.worker)
      ensures OnlyTouches(old(repository.db.history), before, {}) && QueueOk(requests, before) && |requests| <= limit
      ensures OnlyTouches(before, repository.db.history, KeysOf(requests))
      ensures forall q | q in requests :: IsOpen(before, q.key, at)
      ensures listed ==> ListsOpen(before, requests, limit, at)
      ensures |turns| == |requests| && (!listed ==> requests == [])
      ensures forall i | 0 <= i < |requests| :: TurnOk(turns[i], requests[i], maxAttempts, before, repository.db.history)
      ensures failures == FailedKeys(requests, turns)
      ensures repository.db.reliable ==> listed && Healthy(requests, turns)
      ensures repository.db.reliable && (forall q | q in requests :: q.action != Unsupported) ==> failures == []
    {
      hide *;
      var db := repository.db;
      ghost var run0, actions0, history0 := db.run, db.actions, db.history;
      failures, turns := [], [];
      repository.Pause();
      ghost var run1, actions1 := db.run, db.actions;
      before := db.history;
      RoomStays(history0, before);
      var now := Now();
      at := now;
      listed, requests := repository.PendingPrivacyRequests(limit, now);
      Store.ContinuesOn(run0, actions0, run1, actions1, db.run, db.actions);
      if listed {
        repository.ListIsComplete(requests, limit, now);
      }
      StartPass(before, requests, maxAttempts);
      TouchesItself(before);
      NoTurns(requests);
      if !listed {
        return;
      }
      for i := 0 to |requests|
        invariant db.Valid() && Continues(run0, actions0, db.run, db.actions)
        invariant db.worker == Listed(requests[i..])
        invariant OnlyTouches(before, db.history, KeysOf(requests[..i]))
        invariant |turns| == i && PassOk(before, db.history, requests, turns, maxAttempts)
        invariant failures == FailedKeys(requests, turns)
        invariant db.reliable ==> Healthy(requests, turns)
      {
        var request := requests[i];
        assert requests[i..] == [request] + requests[i + 1..];
        ghost var run2, actions2, history2 := db.run, db.actions, db.history;
        TurnOf(before, history2, requests, turns, maxAttempts);
        var ok;
        ghost var turn;
        ok, turn := Process(request, requests[i + 1..]);
        Store.ContinuesOn(run0, actions0, run2, actions2, db.run, db.actions);
        if !ok {
          failures := failures + [request.key];
        }
        PassGoesOn(before, history2, db.history, requests, turns, turn, maxAttempts);
        FailuresGrow(requests, turns, turn);
        if db.reliable {
          StaysHealthy(requests, turns, turn);
        }
        turns := turns + [turn];
        TouchesOneMore(before, history2, db.history, requests, i);
      }
      assert requests[..|requests|] == requests;
      PassIsOver(before, db.history, requests, turns, maxAttempts);
      if db.reliable && forall q | q in requests :: q.action != Unsupported {
        HealthyHasNoFailures(requests, turns);
      }
    }
  }

  /**
   A request that failed is taken up again: put in retry, it is listed by any pass
   from its backoff on, or has to wait for a full list of earlier requests.
   */
  method RetryComesBack(store: PrivacyStore, request: Request, maxAttempts: nat, limit: nat, now: int)
    returns (stored: bool, listed: bool, requests: seq<Request>, ghost at: int)
    requires store.db.Valid() && store.db.worker == Closing(request, [], false) && maxAttempts == store.db.maxAttempts
    requires request.key in store.db.history && request.attempts < maxAttempts
    modifies store.db
    ensures store.db.Valid()
    ensures stored && listed && at + RetryDelay(request.attempts) <= now ==>
              || (exists q :: q in requests && q.key == request.key)
              || (|requests| == limit && forall q | q in requests :: q.requestedAt <= request.requestedAt)
    ensures stored && listed && now < at + RetryDelay(request.attempts) ==> forall q | q in requests :: q.key != request.key
    ensures store.db.reliable ==> stored && listed
  {
    hide IsRun, Continues, RetryDelay, OnlyTouches, OutcomeStored;
    var db := store.db;
    ghost var rows := db.history[request.key];
    stored, at := store.WriteOutcome(request, [], false, maxAttempts);
    ghost var history1 := db.history;
    if stored {
      OutcomeRepeats(rows, history1[request.key], request, false, maxAttempts);
    }
    store.Pause();
    InHistory(history1, db.history, request.key);
    listed, requests := store.PendingPrivacyRequests(limit, now);
    if stored && listed {
      store.ListIsComplete(requests, limit, now);
    }
  }
}
