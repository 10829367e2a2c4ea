/**
 Runs that reach states in which a promise fails.  In one, the status of a
 completed batch goes back to `reserved`: the batch is ingested, its scope is
 asked to be deleted, and the mutation of the ledger removes the completion
 before the reservation.  In another, a batch with a repeated record ID is
 ingested, and merges change what a view shows of it.
 */
module Reversal {
  import opened Tables
  import opened Telemetry
  import opened Protocol
  import opened History
  import opened MutationSteps
  import opened Safety
  import opened Exactly
  import opened Database
  import opened Invariant
  import opened Atomic
  import opened Views

  // ---------- Continuing a run ----------

  /** `n` statements lead from one state to the other. */
  ghost predicate Path(s: Sys, s': Sys, n: nat)
    decreases n
  {
    if n == 0 then s' == s else exists t, a :: Path(s, t, n - 1) && Next(t, a, s') && CounterFits(s')
  }

  ghost predicate Leads(s: Sys, s': Sys)
  {
    exists n: nat :: Path(s, s', n)
  }

  lemma Stays(s: Sys)
    ensures Leads(s, s)
  {
    assert Path(s, s, 0);
  }

  lemma Then(s: Sys, t: Sys, a: Action, s': Sys)
    requires Leads(s, t) && Next(t, a, s') && CounterFits(s')
    ensures Leads(s, s')
  {
    hide Next;
    var n: nat :| Path(s, t, n);
    assert Path(s, t, n + 1 - 1);
    assert Path(s, s', n + 1);
  }

  lemma {:induction false} PathsJoin(s: Sys, t: Sys, s': Sys, m: nat, n: nat)
    requires Path(s, t, m) && Path(t, s', n)
    ensures Path(s, s', m + n)
    decreases n
  {
    hide Next;
    if n > 0 {
      var u, a :| Path(t, u, n - 1) && Next(u, a, s') && CounterFits(s');
      PathsJoin(s, t, u, m, n - 1);
      assert Path(s, u, m + n - 1);
    }
  }

  lemma LeadsOn(s: Sys, t: Sys, s': Sys)
    requires Leads(s, t) && Leads(t, s')
    ensures Leads(s, s')
  {
    hide Path;
    var m: nat :| Path(s, t, m);
    var n: nat :| Path(t, s', n);
    PathsJoin(s, t, s', m, n);
  }

  /** What a state leads to, a run that ends in it can be continued to. */
  lemma {:induction false} PathIsRun(run: seq<Sys>, actions: seq<Action>, s': Sys, n: nat) returns (run': seq<Sys>, actions': seq<Action>)
    requires IsRun(run, actions) && |run| == |actions| + 1 && Path(run[|run| - 1], s', n)
    ensures IsRun(run', actions') && |run'| == |actions'| + 1 && run'[|run'| - 1] == s'
    ensures Continues(run, actions, run', actions')
    decreases n
  {
    hide IsRun, Next;
    if n == 0 {
      run', actions' := run, actions;
    } else {
      var t, a :| Path(run[|run| - 1], t, n - 1) && Next(t, a, s') && CounterFits(s');
      var run1, actions1 := PathIsRun(run, actions, t, n - 1);
      RunExtends(run1, actions1, a, s');
      run', actions' := run1 + [s'], actions1 + [a];
      assert run'[..|run|] == run1[..|run|] && actions'[..|actions|] == actions1[..|actions|];
    }
  }

  // ---------- Ingest ----------

  function Empty(maxAttempts: nat): Sys
  {
    Sys([], [], [], [], [], [], [], Idle, V1Idle, Resting, map[], map[], maxAttempts)
  }

  function Reservation(sha: Digest): LedgerRow
  {
    LedgerRowFor(sha, StatusReserved, 0)
  }

  function Completion(sha: Digest): LedgerRow
  {
    LedgerRowFor(sha, StatusCompleted, 1)
  }

  function Ingested(sha: Digest, maxAttempts: nat): Sys
  {
    Empty(maxAttempts).(ledger := [Reservation(sha), Completion(sha)],
                        registry := RegistryRows(sha, 0), streams := StreamRows(sha.batch, 0))
  }

  lemma Reserving(sha: Digest, maxAttempts: nat)
    requires ValidBatch(sha.batch)
    ensures Leads(Empty(maxAttempts), Empty(maxAttempts).(ledger := [Reservation(sha)], writer := Reserved(sha, 0)))
  {
    hide Leads;
    var s := Empty(maxAttempts);
    Stays(s);
    var s1 := s.(writer := Looked(sha, None));
    Then(s, s, ByWriter(LookUpBatch(sha, None)), s1);
    var s2 := s.(writer := Cleared(sha));
    Then(s, s1, ByWriter(CheckSuppressed(None)), s2);
    assert [] + [Reservation(sha)] == [Reservation(sha)];
    Then(s, s2, ByWriter(Reserve(0, Acked)), s.(ledger := [Reservation(sha)], writer := Reserved(sha, 0)));
  }

  lemma Querying(sha: Digest, maxAttempts: nat)
    requires ValidBatch(sha.batch)
    ensures Leads(Empty(maxAttempts), Empty(maxAttempts).(ledger := [Reservation(sha)], writer := Vacant(sha, 0)))
  {
    hide Leads, ValidBatch;
    Reserving(sha, maxAttempts);
    var s3 := Empty(maxAttempts).(ledger := [Reservation(sha)], writer := Reserved(sha, 0));
    Then(Empty(maxAttempts), s3, ByWriter(QueryRegistry(None)), s3.(writer := Vacant(sha, 0)));
  }

  lemma Registering(sha: Digest, maxAttempts: nat)
    requires ValidBatch(sha.batch)
    ensures Leads(Empty(maxAttempts),
                  Empty(maxAttempts).(ledger := [Reservation(sha)], registry := RegistryRows(sha, 0), writer := Registered(sha, 0)))
  {
    hide Leads, ValidBatch;
    Querying(sha, maxAttempts);
    var s4 := Empty(maxAttempts).(ledger := [Reservation(sha)], writer := Vacant(sha, 0));
    assert [] + RegistryRows(sha, 0) == RegistryRows(sha, 0);
    Then(Empty(maxAttempts), s4, ByWriter(SendRegistry(RegistryRows(sha, 0), Acked)),
         s4.(registry := RegistryRows(sha, 0), writer := Registered(sha, 0)));
  }

  lemma Completing(sha: Digest, maxAttempts: nat)
    requires ValidBatch(sha.batch)
    ensures Leads(Empty(maxAttempts), Ingested(sha, maxAttempts))
  {
    Registering(sha, maxAttempts);
    hide Leads, ValidBatch;
    var s := Empty(maxAttempts);
    var s5 := s.(ledger := [Reservation(sha)], registry := RegistryRows(sha, 0), writer := Registered(sha, 0));
    assert [] + StreamRows(sha.batch, 0) == StreamRows(sha.batch, 0);
    var s6 := s5.(streams := StreamRows(sha.batch, 0), writer := Written(sha, 0));
    Then(s, s5, ByWriter(SendStream(StreamRows(sha.batch, 0), Acked)), s6);
    assert [Reservation(sha)] + [Completion(sha)] == [Reservation(sha), Completion(sha)];
    Then(s, s6, ByWriter(CompleteBatch(1, Acked)), Ingested(sha, maxAttempts));
  }

  // ---------- A request to delete the batch's scope ----------

  function RequestFor(sha: Digest): NewRequest
  {
    NewRequest(RequestKey(sha.batch.scope.product, "request"), sha.batch.scope, Delete, "", 0, None)
  }

  function FirstRow(sha: Digest): SuppressionRow
  {
    PendingRowFor(RequestFor(sha), 0)
  }

  function SecondRow(sha: Digest): SuppressionRow
  {
    ClaimRow(Snapshot(FirstRow(sha)), 0, 0)
  }

  /** The worker's copy once it holds the claim. */
  function Held(sha: Digest): Request
  {
    Claimed(Snapshot(FirstRow(sha)))
  }

  function Requested(sha: Digest, maxAttempts: nat): Sys
  {
    Ingested(sha, maxAttempts).(suppressions := [FirstRow(sha)], history := map[RequestFor(sha).key := [FirstRow(sha)]])
  }

  lemma LookingUp(sha: Digest, maxAttempts: nat)
    requires ValidBatch(sha.batch)
    ensures Leads(Ingested(sha, maxAttempts), Ingested(sha, maxAttempts).(writer := WriterPc.Requesting(RequestFor(sha))))
  {
    hide Leads;
    var s := Ingested(sha, maxAttempts);
    Stays(s);
    Then(s, s, ByWriter(LookUpRequest(RequestFor(sha), None)), s.(writer := WriterPc.Requesting(RequestFor(sha))));
  }

  lemma RequestFits(sha: Digest, maxAttempts: nat)
    ensures CounterFits(Requested(sha, maxAttempts))
  {
    assert [FirstRow(sha)][..0] == [] && Claims([FirstRow(sha)]) == 0;
  }

  lemma RequestIsNext(sha: Digest, maxAttempts: nat)
    ensures Next(Ingested(sha, maxAttempts).(writer := WriterPc.Requesting(RequestFor(sha))), ByWriter(CommitRequest(0, Acked)),
                 Requested(sha, maxAttempts))
  {
    assert [] + [FirstRow(sha)] == [FirstRow(sha)];
  }

  lemma Requesting(sha: Digest, maxAttempts: nat)
    requires ValidBatch(sha.batch)
    ensures Leads(Ingested(sha, maxAttempts), Requested(sha, maxAttempts))
  {
    hide *;
    LookingUp(sha, maxAttempts);
    RequestFits(sha, maxAttempts);
    RequestIsNext(sha, maxAttempts);
    Then(Ingested(sha, maxAttempts), Ingested(sha, maxAttempts).(writer := WriterPc.Requesting(RequestFor(sha))),
         ByWriter(CommitRequest(0, Acked)), Requested(sha, maxAttempts));
  }

  function ClaimHeld(sha: Digest, maxAttempts: nat): Sys
  {
    Requested(sha, maxAttempts).(
      suppressions := [FirstRow(sha), SecondRow(sha)], history := map[RequestFor(sha).key := [FirstRow(sha), SecondRow(sha)]],
      worker := Deleting(Held(sha), [], 0))
  }

  lemma OneClaim(sha: Digest)
    ensures Claims([FirstRow(sha)]) == 0 && Claims([FirstRow(sha), SecondRow(sha)]) == 1
  {
    assert [FirstRow(sha)][..0] == [];
    assert [FirstRow(sha), SecondRow(sha)][..1] == [FirstRow(sha)];
  }

  lemma Listing(sha: Digest, maxAttempts: nat)
    ensures Leads(Requested(sha, maxAttempts), Requested(sha, maxAttempts).(worker := Listed([Snapshot(FirstRow(sha))])))
  {
    hide Leads;
    OneClaim(sha);
    var s, row := Requested(sha, maxAttempts), FirstRow(sha);
    Stays(s);
    assert Snapshots([row]) == [Snapshot(row)];
    Then(s, s, ByWorker(ListPending(0, [row])), s.(worker := Listed([Snapshot(row)])));
  }

  lemma Reading(sha: Digest, maxAttempts: nat)
    ensures Leads(Requested(sha, maxAttempts), Requested(sha, maxAttempts).(worker := WorkerPc.Claiming(Snapshot(FirstRow(sha)), [], 0, 0)))
  {
    hide Leads;
    OneClaim(sha);
    Listing(sha, maxAttempts);
    var s, row := Requested(sha, maxAttempts), FirstRow(sha);
    assert [Snapshot(row)][1..] == [];
    Then(s, s.(worker := Listed([Snapshot(row)])), ByWorker(ReadClaim(0, row)), s.(worker := WorkerPc.Claiming(Snapshot(row), [], 0, 0)));
  }

  lemma Claiming(sha: Digest, maxAttempts: nat)
    ensures Leads(Requested(sha, maxAttempts), ClaimHeld(sha, maxAttempts))
  {
    hide Leads;
    OneClaim(sha);
    Reading(sha, maxAttempts);
    var s, row := Requested(sha, maxAttempts), FirstRow(sha);
    assert [row] + [SecondRow(sha)] == [row, SecondRow(sha)];
    Then(s, s.(worker := WorkerPc.Claiming(Snapshot(row), [], 0, 0)), ByWorker(WriteClaim(Acked)), ClaimHeld(sha, maxAttempts));
  }

  // ---------- The deletion loop ----------

  /** The loop stands at table `i`, nothing of the ledger is gone, and no progress is stored for the tables ahead. */
  ghost predicate AtLoop(s: Sys, sha: Digest, i: nat)
  {
    && i < |TablesOf(None)| && s.worker == Deleting(Held(sha), [], i)
    && s.ledger == [Reservation(sha), Completion(sha)]
    && (forall r, j | r in s.progress && i <= j < |TablesOf(None)| :: r.key != ProgressKey(Held(sha).key, TablesOf(None)[j]))
    && CounterFits(s)
  }

  /** The server may carry a mutation of another table through. */
  lemma {:induction false} Emptying(s: Sys, k: nat) returns (s': Sys)
    requires k < |s.mutations| && HasTable(s.mutations[k]) && TableOf(s.mutations[k]) != LedgerTable && CounterFits(s)
    ensures Leads(s, s') && Finished(ContentsOf(s'), s.mutations[k])
    ensures s' == s.(registry := s'.registry, streams := s'.streams, v1Rows := s'.v1Rows)
    decreases TableSize(ContentsOf(s), TableOf(s.mutations[k]))
  {
    hide Finished, TablesOf, TableSize;
    var m := s.mutations[k];
    Stays(s);
    if Finished(ContentsOf(s), m) {
      s' := s;
    } else {
      var j := CoveredRow(ContentsOf(s), m);
      var t := MutationApply(s, k, j);
      Then(s, s, ByMutation(k, j), t);
      RowsMoveUp(s, m, j);
      s' := Emptying(t, k);
      LeadsOn(s, t, s');
    }
  }

  lemma NotMarkedYet(s: Sys, sha: Digest, i: nat)
    requires AtLoop(s, sha, i)
    ensures Leads(s, s.(worker := WorkerPc.Marking(Held(sha), [], i, 0)))
  {
    hide Leads, TablesOf;
    Stays(s);
    Then(s, s, ByWorker(ReadProgress(None)), s.(worker := WorkerPc.Marking(Held(sha), [], i, 0)));
  }

  /** Up to the reservation of the table. */
  lemma Marking(s: Sys, sha: Digest, i: nat) returns (s': Sys)
    requires AtLoop(s, sha, i)
    ensures Leads(s, s') && s'.worker == WorkerPc.Marked(Held(sha), [], i, 1) && CounterFits(s')
    ensures ContentsOf(s') == ContentsOf(s) && s'.history == s.history && s'.mutations == s.mutations
    ensures forall r | r in s'.progress :: r in s.progress || r.key == ProgressKey(Held(sha).key, TablesOf(None)[i])
  {
    hide Leads, TablesOf, StatusVersion, CounterFits;
    NotMarkedYet(s, sha, i);
    var s1 := s.(worker := WorkerPc.Marking(Held(sha), [], i, 0));
    s' := WithMark(s1, MarkRow(s1.worker, Processing, 1), Acked).(worker := WorkerPc.Marked(Held(sha), [], i, 1));
    SameHistoryFits(s, s');
    Then(s, s1, ByWorker(MarkProcessing(Acked)), s');
  }

  /** Up to the submission of the table's mutation. */
  lemma Submitting(s: Sys, sha: Digest, i: nat) returns (s': Sys)
    requires AtLoop(s, sha, i)
    ensures Leads(s, s') && s'.worker == Mutating(Held(sha), [], i, 1, |s.mutations|)
    ensures s'.ledger == s.ledger && s'.history == s.history
    ensures |s'.mutations| == |s.mutations| + 1
    ensures s'.mutations[|s.mutations|] == Mutation(Held(sha).key, Held(sha).scope, None, i, ContentsOf(s))
    ensures forall r | r in s'.progress :: r in s.progress || r.key == ProgressKey(Held(sha).key, TablesOf(None)[i])
  {
    hide CounterFits;
    var t := Marking(s, sha, i);
    s' := t.(mutations := t.mutations + [MutationFor(t)], worker := Mutating(Held(sha), [], i, 1, |t.mutations|));
    SameHistoryFits(t, s');
    Then(s, t, ByWorker(SubmitMutation(true)), s');
  }

  /** From the acknowledgement of the table's mutation to the next table. */
  lemma Finishing(s: Sys, i: nat, q: Request) returns (s': Sys)
    requires |s.mutations| > 0 && s.worker == Mutating(q, [], i, 1, |s.mutations| - 1)
    requires i + 1 < |TablesOf(q.legacyInstallation)| && CounterFits(s)
    requires HasTable(s.mutations[|s.mutations| - 1]) && Finished(ContentsOf(s), s.mutations[|s.mutations| - 1])
    ensures Leads(s, s') && s'.worker == Deleting(q, [], i + 1) && s'.ledger == s.ledger && s'.history == s.history
    ensures forall r | r in s'.progress :: r in s.progress || r.key == ProgressKey(q.key, TablesOf(q.legacyInstallation)[i])
  {
    hide Leads, StatusVersion, CounterFits, TablesOf;
    Stays(s);
    var s1 := s.(worker := Mutated(q, [], i, 1));
    SameHistoryFits(s, s1);
    Then(s, s, ByWorker(EndMutation(true)), s1);
    s' := WithMark(s1, MarkRow(s1.worker, Completed, 1), Acked).(worker := Deleting(q, [], i + 1));
    SameHistoryFits(s, s');
    Then(s, s1, ByWorker(MarkCompleted(Acked)), s');
  }

  lemma NextTableOfLoop(s: Sys, sha: Digest, i: nat) returns (s': Sys)
    requires AtLoop(s, sha, i) && i < 6
    ensures Leads(s, s') && AtLoop(s', sha, i + 1)
  {
    hide Leads, Finished, CounterFits;
    TablesOfV2(i);
    var s1 := Submitting(s, sha, i);
    SameHistoryFits(s, s1);
    var s2 := Emptying(s1, |s.mutations|);
    SameHistoryFits(s, s2);
    s' := Finishing(s2, i, Held(sha));
    SameHistoryFits(s, s');
    LeadsOn(s, s1, s2);
    LeadsOn(s, s2, s');
  }

  lemma TablesOfV2(i: nat)
    requires i < 6
    ensures |TablesOf(None)| == 7 && TablesOf(None)[i] != LedgerTable
    ensures forall j | i < j < 7 :: TablesOf(None)[j] != TablesOf(None)[i]
  {
  }

  lemma SameHistoryFits(s: Sys, s': Sys)
    requires CounterFits(s) && s'.history == s.history
    ensures CounterFits(s')
  {
  }

  lemma {:induction false} LoopToLedger(s: Sys, sha: Digest, i: nat) returns (s': Sys)
    requires AtLoop(s, sha, i) && i <= 6
    ensures Leads(s, s') && AtLoop(s', sha, 6)
    decreases 6 - i
  {
    if i == 6 {
      Stays(s);
      s' := s;
    } else {
      var t := NextTableOfLoop(s, sha, i);
      s' := LoopToLedger(t, sha, i + 1);
      LeadsOn(s, t, s');
    }
  }

  lemma LosingCompletion(s: Sys, sha: Digest) returns (s': Sys)
    requires AtLoop(s, sha, 6)
    ensures Leads(s, s') && s'.ledger == [Reservation(sha)]
  {
    hide Leads, CounterFits;
    assert TablesOf(None)[6] == LedgerTable;
    var t := Submitting(s, sha, 6);
    var m := t.mutations[|s.mutations|];
    assert TableOf(m) == LedgerTable && t.ledger[1] == Completion(sha) && t.ledger[1] in m.before.ledger;
    assert DeleteMatches(m.scope, Completion(sha).data.scope);
    assert RowCovered(ContentsOf(t), m, 1);
    s' := t.(ledger := Without(t.ledger, 1));
    assert Without(t.ledger, 1) == [Reservation(sha)];
    SameHistoryFits(s, s');
    Then(s, t, ByMutation(|s.mutations|, 1), s');
  }

  // ---------- The run ----------

  /**
   For every body there is a run in which its batch is completed and FINAL
   answers with the completion, and later FINAL answers `reserved`.
   */
  lemma StatusTurnsBack(sha: Digest, maxAttempts: nat) returns (run: seq<Sys>, actions: seq<Action>, i: nat, j: nat)
    requires ValidBatch(sha.batch) && maxAttempts >= 1
    ensures IsRun(run, actions) && i < j < |run|
    ensures FinalRead(run[i].ledger, KeyOf(sha.batch), Some(Completion(sha)))
    ensures AnswersReserved(run[j].ledger, KeyOf(sha.batch))
  {
    hide Leads, ValidBatch;
    var s0, s1 := Empty(maxAttempts), Ingested(sha, maxAttempts);
    Completing(sha, maxAttempts);
    Requesting(sha, maxAttempts);
    Claiming(sha, maxAttempts);
    var s2 := ClaimHeld(sha, maxAttempts);
    OneClaim(sha);
    assert AtLoop(s2, sha, 0);
    var s3 := LoopToLedger(s2, sha, 0);
    var s4 := LosingCompletion(s3, sha);
    LeadsOn(s1, Requested(sha, maxAttempts), s2);
    LeadsOn(s1, s2, s3);
    LeadsOn(s1, s3, s4);
    hide AtLoop, FinalRead;
    run, actions, i, j := RunThrough(s0, s1, s4);
    assert FinalRead(s1.ledger, KeyOf(sha.batch), Some(Completion(sha))) by {
      ReadsOfLedger(sha);
    }
    assert AnswersReserved(s4.ledger, KeyOf(sha.batch)) by {
      ReadsOfLedger(sha);
    }
  }

  lemma ReadsOfLedger(sha: Digest)
    ensures FinalRead([Reservation(sha), Completion(sha)], KeyOf(sha.batch), Some(Completion(sha)))
    ensures AnswersReserved([Reservation(sha)], KeyOf(sha.batch))
  {
    assert FinalRead([Reservation(sha)], KeyOf(sha.batch), Some(Reservation(sha)));
  }

  lemma OneState(s: Sys)
    requires Init(s)
    ensures IsRun([s], [])
  {
  }

  /** A run through two states that differ. */
  lemma RunThrough(s0: Sys, s1: Sys, s2: Sys) returns (run: seq<Sys>, actions: seq<Action>, i: nat, j: nat)
    requires Init(s0) && Leads(s0, s1) && Leads(s1, s2) && s1 != s2
    ensures IsRun(run, actions) && i < j < |run| && run[i] == s1 && run[j] == s2
  {
    hide Init, Next;
    OneState(s0);
    var m: nat :| Path(s0, s1, m);
    var run1, actions1 := PathIsRun([s0], [], s1, m);
    var n: nat :| Path(s1, s2, n);
    run, actions := PathIsRun(run1, actions1, s2, n);
    i, j := |run1| - 1, |run| - 1;
    assert |run1| <= |run| && run[i] == run[..|run1|][i];
  }

  // ---------- A view that is not settled ----------

  /**
   A batch that has a record ID twice, with different payloads, leaves its view
   unsettled once it is ingested, so that merges may change what the view shows.
   */
  lemma RepeatedIdSpoilsView(sha: Digest, i: nat, j: nat, maxAttempts: nat)
    returns (run: seq<Sys>, actions: seq<Action>, s': Sys, n: nat)
    requires ValidBatch(sha.batch) && maxAttempts >= 1
    requires i < j < |sha.batch.records| && sha.batch.records[i].id == sha.batch.records[j].id
    requires sha.batch.records[i].payload != sha.batch.records[j].payload
    ensures IsRun(run, actions) && run != [] && sha in Accepted(run[|run| - 1])
    ensures !Settled(run[|run| - 1], sha.batch.stream)
    ensures MergesTo(run[|run| - 1], s', n) && ViewOf(s', sha.batch.stream) != ViewOf(run[|run| - 1], sha.batch.stream)
  {
    hide ValidBatch, Leads, MergesTo, ViewOf, Inv;
    var s0, s := Empty(maxAttempts), Ingested(sha, maxAttempts);
    Completing(sha, maxAttempts);
    run, actions := RunTo(s0, s);
    IngestedIsUnsettled(sha, i, j, maxAttempts);
    RunInv(run, actions, |run| - 1);
    SettledExactly(s, sha.batch.stream);
    s', n :| MergesTo(s, s', n) && ViewOf(s', sha.batch.stream) != ViewOf(s, sha.batch.stream);
    assert Completion(sha) in s.ledger;
  }

  lemma IngestedIsUnsettled(sha: Digest, i: nat, j: nat, maxAttempts: nat)
    requires i < j < |sha.batch.records| && sha.batch.records[i].id == sha.batch.records[j].id
    requires sha.batch.records[i].payload != sha.batch.records[j].payload
    ensures !Settled(Ingested(sha, maxAttempts), sha.batch.stream)
  {
    var rows := StreamRows(sha.batch, 0);
    var a, b := rows[i], rows[j];
    assert a in rows && b in rows && forall r | r in rows :: r.version == 0;
    assert IsNewest(rows, a) && IsNewest(rows, b);
    assert !Suppressed(Ingested(sha, maxAttempts).history, a.data.scope);
  }

  lemma RunTo(s0: Sys, s: Sys) returns (run: seq<Sys>, actions: seq<Action>)
    requires Init(s0) && Leads(s0, s)
    ensures IsRun(run, actions) && run != [] && run[|run| - 1] == s
  {
    hide IsRun, Path, Init, Next, CounterFits;
    OneState(s0);
    var m: nat :| Path(s0, s, m);
    run, actions := PathIsRun([s0], [], s, m);
  }
}
