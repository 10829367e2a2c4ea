/**
 The reporting views: FINAL stream rows outside every suppressed scope.
 */
module Views {
  import opened Tables
  import opened Telemetry
  import opened Protocol
  import opened History
  import opened Invariant
  import opened Facts
  import opened OtherSteps
  import opened MutationSteps
  import opened Safety
  import opened Theorems
  import opened Exactly
  import opened WorkerSteps
  import opened Atomic

  // ---------- The filter ----------

  /** The three NOT IN conditions of the view, for one active suppression row. */
  predicate FilterHides(suppressed: Scope, stored: Scope)
  {
    && suppressed.product == stored.product
    && suppressed.productKey == stored.productKey
    && (|| suppressed.subject == stored.subject
        || (suppressed.person.Some? && suppressed.person.value == StringValue(stored.person))
        || (suppressed.org.Some? && suppressed.org.value == StringValue(stored.org)))
  }

  /**
   Gate, mutation and view filter agree on every stored scope exactly when the
   request's keys are not empty, and then each picks the scopes of its product
   with its subject, its person or its organisation.
   */
  lemma OneRelation(request: Scope)
    ensures request.person != Some("") && request.org != Some("") <==>
              forall stored :: && (FilterHides(request, stored) <==> GateMatches(request, stored))
                               && (GateMatches(request, stored) <==> DeleteMatches(request, stored))
    ensures request.person != Some("") && request.org != Some("") ==>
              forall stored :: && (FilterHides(request, stored) <==> Concerns(request, stored))
                               && (GateMatches(request, stored) <==> Concerns(request, stored))
                               && (DeleteMatches(request, stored) <==> Concerns(request, stored))
  {
    if !(request.person != Some("") && request.org != Some("")) {
      var stored := Scope(request.product, request.productKey, request.subject + "x", None, None);
      assert |stored.subject| != |request.subject|;
      assert FilterHides(request, stored) && !GateMatches(request, stored);
    }
  }

  ghost predicate Hidden(suppressions: seq<SuppressionRow>, stored: Scope)
  {
    exists r :: r in suppressions && IsNewest(suppressions, r) && r.data.active && FilterHides(r.data.scope, stored)
  }

  datatype ViewRow = ViewRow(key: StreamKey, scope: Scope, payload: string)

  /** The rows a reporting view of `stream` returns; it selects neither batch nor ingest time. */
  ghost function ViewOf(s: Sys, stream: Stream): set<ViewRow>
  {
    set r | && r in s.streams && r.key.stream == stream && IsNewest(s.streams, r)
            && !Hidden(s.suppressions, r.data.scope) :: ViewRow(r.key, r.data.scope, r.data.payload)
  }

  // ---------- What the views depend on ----------

  lemma HiddenIsSuppressed(s: Sys, scope: Scope)
    requires HistoryOk(s.history, s.suppressions, s.maxAttempts)
    ensures Hidden(s.suppressions, scope) <==> Suppressed(s.history, scope)
  {
    if Hidden(s.suppressions, scope) {
      var r :| r in s.suppressions && IsNewest(s.suppressions, r) && r.data.active && FilterHides(r.data.scope, scope);
      RowInHistory(s.history, s.suppressions, s.maxAttempts, r);
      assert IsFirst(s.history[r.key][0], r.key) by {
        assert WellFormed(s.history[r.key], r.key, s.maxAttempts);
      }
      OneRelation(r.data.scope);
      assert GateMatches(s.history[r.key][0].data.scope, scope);
    }
    if Suppressed(s.history, scope) {
      var k :| k in s.history && s.history[k] != [] && GateMatches(s.history[k][0].data.scope, scope);
      LastIsFound(s.history, s.suppressions, s.maxAttempts, k);
      assert IsFirst(s.history[k][0], k) by {
        assert WellFormed(s.history[k], k, s.maxAttempts);
      }
      OneRelation(s.history[k][0].data.scope);
      assert FilterHides(Last(s.history[k]).data.scope, scope);
    }
  }

  ghost function Visible(r: StreamRow): ViewRow
  {
    ViewRow(r.key, r.data.scope, r.data.payload)
  }

  /** A view shows the newest rows of the scopes that no stored request covers. */
  lemma ViewIsUnsuppressed(s: Sys, stream: Stream, v: ViewRow)
    requires Inv(s)
    ensures v in ViewOf(s, stream) <==>
              exists r :: IsNewest(s.streams, r) && r.key.stream == stream && !Suppressed(s.history, r.data.scope) && v == Visible(r)
  {
    hide LedgerOk, ChainOk, HistoryOk, ErasureOk, WritersOk, DeleterOk, Suppressed, Hidden;
    if v in ViewOf(s, stream) {
      var r :| && r in s.streams && r.key.stream == stream && IsNewest(s.streams, r)
               && !Hidden(s.suppressions, r.data.scope) && v == ViewRow(r.key, r.data.scope, r.data.payload);
      HiddenIsSuppressed(s, r.data.scope);
    }
    if exists r :: IsNewest(s.streams, r) && r.key.stream == stream && !Suppressed(s.history, r.data.scope) && v == Visible(r) {
      var r :| IsNewest(s.streams, r) && r.key.stream == stream && !Suppressed(s.history, r.data.scope) && v == Visible(r);
      HiddenIsSuppressed(s, r.data.scope);
    }
  }

  // ---------- Transparency ----------

  /** The newest rows of one key show the same; they may not where a batch has a record ID twice. */
  ghost predicate Settled(s: Sys, stream: Stream)
  {
    forall a, b | IsNewest(s.streams, a) && IsNewest(s.streams, b) && a.key == b.key && a.key.stream == stream
                  && !Suppressed(s.history, a.data.scope) :: a.data.payload == b.data.payload
  }

  /** Unless a batch with a repeated ID is stored, all views are settled. */
  lemma DistinctIsSettled(s: Sys, stream: Stream)
    requires Inv(s) && forall l | l in s.ledger :: DistinctIds(l.data.sha.batch)
    ensures Settled(s, stream)
  {
    hide LedgerOk, RegistryOk, StreamsOk, HistoryOk, ErasureOk, WritersOk, DeleterOk, Suppressed, DistinctIds,
         RepeatsRecord;
    forall a, b | IsNewest(s.streams, a) && IsNewest(s.streams, b) && a.key == b.key
      ensures a.data.payload == b.data.payload
    {
      var batch := StreamKeyDeterminesRow(s.streams, s.registry, s.ledger, a, b);
    }
  }

  /** Rows are taken away only if they are hidden or leave another of their key, and never the newest before an older one. */
  ghost predicate KeepsNewest(s: Sys, s': Sys)
  {
    && SameRequests(s.history, s'.history)
    && (forall r | r in s'.streams :: r in s.streams)
    && (forall r | r in s.streams :: Suppressed(s.history, r.data.scope) || exists q :: q in s'.streams && q.key == r.key)
    && (forall r | IsNewest(s'.streams, r) :: Suppressed(s.history, r.data.scope) || IsNewest(s.streams, r))
  }

  lemma SameScope(s: Sys, a: StreamRow, b: StreamRow)
    requires Inv(s) && a in s.streams && b in s.streams && a.key == b.key
    ensures a.data.scope == b.data.scope
  {
    hide LedgerOk, RegistryOk, StreamsOk, HistoryOk, ErasureOk, WritersOk, DeleterOk, RepeatsRecord, DistinctIds,
         InLedger;
    var batch := StreamKeyDeterminesRow(s.streams, s.registry, s.ledger, a, b);
  }

  lemma StaysSettled(s: Sys, s': Sys, stream: Stream)
    requires KeepsNewest(s, s') && Settled(s, stream)
    ensures Settled(s', stream)
  {
    hide Suppressed, SameRequests, IsNewest;
    forall scope
      ensures Suppressed(s'.history, scope) <==> Suppressed(s.history, scope)
    {
      SuppressionsAreSame(s.history, s'.history, scope);
    }
    forall a, b | IsNewest(s'.streams, a) && IsNewest(s'.streams, b) && a.key == b.key && a.key.stream == stream
                  && !Suppressed(s'.history, a.data.scope)
      ensures a.data.payload == b.data.payload
    {
      assert IsNewest(s.streams, a);
      NewestTogether(s, s', a, b);
    }
  }

  lemma NewestTogether(s: Sys, s': Sys, a: StreamRow, b: StreamRow)
    requires IsNewest(s.streams, a) && IsNewest(s'.streams, a) && IsNewest(s'.streams, b) && a.key == b.key
    requires forall r | r in s'.streams :: r in s.streams
    ensures IsNewest(s.streams, b)
  {
  }

  lemma ShowsStill(s: Sys, s': Sys, stream: Stream, r: StreamRow)
    requires Inv(s) && KeepsNewest(s, s') && Settled(s, stream)
    requires IsNewest(s.streams, r) && r.key.stream == stream && !Suppressed(s.history, r.data.scope)
    ensures exists n :: IsNewest(s'.streams, n) && Visible(n) == Visible(r)
  {
    hide Inv, Suppressed, SameRequests;
    var q :| q in s'.streams && q.key == r.key;
    var n := NewestExists(s'.streams, q);
    SameScope(s, n, r);
    assert IsNewest(s.streams, n);
  }

  lemma SameView(s: Sys, s': Sys, stream: Stream)
    requires Inv(s) && Inv(s') && KeepsNewest(s, s') && Settled(s, stream)
    ensures ViewOf(s', stream) == ViewOf(s, stream)
  {
    hide Inv, ViewOf, Suppressed, SameRequests, Settled, IsNewest;
    forall v
      ensures v in ViewOf(s', stream) <==> v in ViewOf(s, stream)
    {
      ViewIsUnsuppressed(s, stream, v);
      ViewIsUnsuppressed(s', stream, v);
      forall scope
        ensures Suppressed(s'.history, scope) <==> Suppressed(s.history, scope)
      {
        SuppressionsAreSame(s.history, s'.history, scope);
      }
      if v in ViewOf(s, stream) {
        var r :| IsNewest(s.streams, r) && r.key.stream == stream && !Suppressed(s.history, r.data.scope) && v == Visible(r);
        ShowsStill(s, s', stream, r);
        var n :| IsNewest(s'.streams, n) && Visible(n) == Visible(r);
        assert n.key.stream == stream && n.data.scope == r.data.scope;
      }
    }
  }

  lemma WorkerKeepsNewest(s: Sys, a: WorkerAction)
    requires Inv(s) && WorkerEnabled(s, a)
    ensures KeepsNewest(s, WorkerApply(s, a))
  {
    hide Inv, WorkerEnabled, WorkerApply, SameRequests, Suppressed, IsNewest;
    WorkerKeepsRequests(s, a);
    WorkerLedger(s, a);
    assert forall r | r in s.streams :: r.key == r.key;
  }

  lemma RemovalKeepsNewest(s: Sys, index: nat, s': Sys)
    requires Inv(s) && index < |s.streams| && Suppressed(s.history, s.streams[index].data.scope)
    requires s'.history == s.history && s'.streams == Without(s.streams, index)
    ensures KeepsNewest(s, s')
  {
    hide Inv, Suppressed, SameRequests;
    SameIsSame(s.history);
    WithoutKeeps(s.streams, index);
    forall r | IsNewest(s'.streams, r)
      ensures Suppressed(s.history, r.data.scope) || IsNewest(s.streams, r)
    {
      if r.key == s.streams[index].key {
        SameScope(s, r, s.streams[index]);
      }
    }
    forall r | r in s.streams && !Suppressed(s.history, r.data.scope)
      ensures exists q :: q in s'.streams && q.key == r.key
    {
      assert r in s'.streams;
    }
  }

  lemma MutationKeepsNewest(s: Sys, mutation: nat, index: nat)
    requires Inv(s) && MutationEnabled(s, mutation, index)
    ensures KeepsNewest(s, MutationApply(s, mutation, index))
  {
    hide Inv, MutationApply, RowCovered, Suppressed, SameRequests, TablesOf, DeletionRequested;
    MutationLedger(s, mutation, index);
    RemovedByRequest(s, s.mutations[mutation], index);
    if TableOf(s.mutations[mutation]).StreamTable? {
      RemovalKeepsNewest(s, index, MutationApply(s, mutation, index));
    } else {
      SameIsSame(s.history);
      assert forall r | r in s.streams :: r.key == r.key;
    }
  }

  lemma MergeKeepsNewest(s: Sys, a: MergeAction)
    requires MergeEnabled(s, a)
    ensures KeepsNewest(s, MergeApply(s, a))
  {
    hide Suppressed;
    if a.MergeStreams? {
      WithoutKeeps(s.streams, a.i);
      assert s.streams[a.j] in MergeApply(s, a).streams;
      assert forall r | r in MergeApply(s, a).streams :: r.key == r.key;
    } else {
      assert forall r | r in s.streams :: r.key == r.key;
    }
  }

  /** No caller of the store takes the step. */
  predicate InBackground(a: Action)
  {
    a.ByWorker? || a.ByMerge? || a.ByMutation?
  }

  lemma NextKeepsNewest(s: Sys, a: Action, s': Sys)
    requires Inv(s) && Next(s, a, s') && InBackground(a)
    ensures KeepsNewest(s, s')
  {
    hide Inv, WorkerEnabled, WorkerApply, MergeEnabled, MergeApply, MutationEnabled, MutationApply, KeepsNewest;
    match a
    case ByWorker(k) => WorkerKeepsNewest(s, k);
    case ByMerge(m) => MergeKeepsNewest(s, m);
    case ByMutation(m, i) => MutationKeepsNewest(s, m, i);
    case _ =>
  }

  /**
   No statement of the deletion worker, no row a mutation removes and no
   background merge changes what a settled view returns, and it stays settled.
   */
  lemma ViewsAreTransparent(run: seq<Sys>, actions: seq<Action>, i: nat, stream: Stream)
    requires IsRun(run, actions) && i < |actions| && InBackground(actions[i])
    requires Settled(run[i], stream)
    ensures ViewOf(run[i + 1], stream) == ViewOf(run[i], stream) && Settled(run[i + 1], stream)
  {
    RunInv(run, actions, i);
    RunInv(run, actions, i + 1);
    StepOfRun(run, actions, i);
    hide IsRun, Inv, ViewOf, Next, KeepsNewest, Settled, InBackground;
    NextKeepsNewest(run[i], actions[i], run[i + 1]);
    SameView(run[i], run[i + 1], stream);
    StaysSettled(run[i], run[i + 1], stream);
  }

  // ---------- Only settled views are transparent ----------

  /** Merges alone lead from `s` to `s'` in `n` steps. */
  ghost predicate MergesTo(s: Sys, s': Sys, n: nat)
    decreases n
  {
    if n == 0 then s' == s else exists a :: MergeEnabled(s, a) && MergesTo(MergeApply(s, a), s', n - 1)
  }

  lemma {:induction false} MergesKeepView(s: Sys, s': Sys, n: nat, stream: Stream)
    requires Inv(s) && Settled(s, stream) && MergesTo(s, s', n)
    ensures ViewOf(s', stream) == ViewOf(s, stream)
    decreases n
  {
    hide Inv, ViewOf, MergeEnabled, MergeApply, KeepsNewest, Settled;
    if n > 0 {
      var a :| MergeEnabled(s, a) && MergesTo(MergeApply(s, a), s', n - 1);
      MergeKeepsInv(s, a);
      MergeKeepsNewest(s, a);
      SameView(s, MergeApply(s, a), stream);
      StaysSettled(s, MergeApply(s, a), stream);
      MergesKeepView(MergeApply(s, a), s', n - 1, stream);
    }
  }

  lemma DropOne(s: Sys, i: nat, j: nat) returns (next: Sys)
    requires Dominated(s.streams, i, j) && s.streams[i] != s.streams[j]
    ensures MergeEnabled(s, MergeStreams(i, j)) && next == MergeApply(s, MergeStreams(i, j))
    ensures |next.streams| == |s.streams| - 1
    ensures s.streams[j] in next.streams && forall r | r in next.streams :: r in s.streams
  {
    next := MergeApply(s, MergeStreams(i, j));
    WithoutKeeps(s.streams, i);
  }

  /** Merges may drop every row that shows as `a` does, if `b` shows otherwise and is not older. */
  lemma {:induction false} DropCopies(s: Sys, a: StreamRow, b: StreamRow) returns (s': Sys, n: nat)
    requires b in s.streams && a.key == b.key && a.data.payload != b.data.payload
    requires forall r | r in s.streams && r.key == b.key :: r.version <= b.version
    ensures MergesTo(s, s', n)
    ensures forall r | r in s'.streams :: Visible(r) != Visible(a)
    decreases |s.streams|
  {
    if c :| c in s.streams && Visible(c) == Visible(a) {
      var i :| 0 <= i < |s.streams| && s.streams[i] == c;
      var j :| 0 <= j < |s.streams| && s.streams[j] == b;
      var next := DropOne(s, i, j);
      hide MergeEnabled, MergeApply;
      var m: nat;
      s', m := DropCopies(next, a, b);
      n := m + 1;
      assert MergeEnabled(s, MergeStreams(i, j)) && MergesTo(MergeApply(s, MergeStreams(i, j)), s', n - 1);
    } else {
      s', n := s, 0;
    }
  }

  /** Merges never change a view exactly when it is settled. */
  lemma SettledExactly(s: Sys, stream: Stream)
    requires Inv(s)
    ensures Settled(s, stream) <==> forall s', n | MergesTo(s, s', n) :: ViewOf(s', stream) == ViewOf(s, stream)
  {
    hide Inv, ViewOf, MergesTo, Suppressed;
    if Settled(s, stream) {
      forall s', n | MergesTo(s, s', n)
        ensures ViewOf(s', stream) == ViewOf(s, stream)
      {
        MergesKeepView(s, s', n, stream);
      }
    } else {
      var a, b :| IsNewest(s.streams, a) && IsNewest(s.streams, b) && a.key == b.key && a.key.stream == stream
                  && !Suppressed(s.history, a.data.scope) && a.data.payload != b.data.payload;
      var s', n := DropCopies(s, a, b);
      ViewIsUnsuppressed(s, stream, Visible(a));
      assert Visible(a) in ViewOf(s, stream);
      NotShown(s', stream, Visible(a));
      assert MergesTo(s, s', n) && ViewOf(s', stream) != ViewOf(s, stream);
    }
  }

  lemma NotShown(s: Sys, stream: Stream, v: ViewRow)
    requires forall r | r in s.streams :: Visible(r) != v
    ensures v !in ViewOf(s, stream)
  {
  }

  // ---------- Equal versions decided by the last insert ----------

  /** Row `j` is older than row `i`, or as old and inserted before it, or that row itself. */
  predicate Yields(rows: seq<StreamRow>, j: int, i: int)
    requires 0 <= j < |rows| && 0 <= i < |rows|
  {
    rows[j].version < rows[i].version || (rows[j].version == rows[i].version && j <= i)
  }

  /** Of the rows of its key, row number `i` has the greatest version, and of those the last position. */
  predicate IsLastNewest(rows: seq<StreamRow>, i: int)
  {
    0 <= i < |rows| && forall j | 0 <= j < |rows| && rows[j].key == rows[i].key :: Yields(rows, j, i)
  }

  /** Row `j` has the same key as row `i` and is newer, or as new and inserted later. */
  predicate Outdone(rows: seq<StreamRow>, i: int, j: int)
  {
    0 <= i < |rows| && 0 <= j < |rows| && i != j && rows[i].key == rows[j].key && Yields(rows, i, j)
  }

  /** What a view returns where FINAL takes the row inserted last of those of the greatest version. */
  ghost function LastViewOf(s: Sys, stream: Stream): set<ViewRow>
  {
    set i | && 0 <= i < |s.streams| && IsLastNewest(s.streams, i) && s.streams[i].key.stream == stream
            && !Hidden(s.suppressions, s.streams[i].data.scope) :: Visible(s.streams[i])
  }

  ghost predicate ShownLast(s: Sys, stream: Stream, i: int)
  {
    && 0 <= i < |s.streams| && IsLastNewest(s.streams, i) && s.streams[i].key.stream == stream
    && !Suppressed(s.history, s.streams[i].data.scope)
  }

  lemma LastViewIsUnsuppressed(s: Sys, stream: Stream, v: ViewRow)
    requires Inv(s)
    ensures v in LastViewOf(s, stream) <==> exists i :: ShownLast(s, stream, i) && v == Visible(s.streams[i])
  {
    hide LedgerOk, ChainOk, HistoryOk, ErasureOk, WritersOk, DeleterOk, Suppressed, Hidden, IsLastNewest;
    forall i | 0 <= i < |s.streams|
      ensures Hidden(s.suppressions, s.streams[i].data.scope) <==> Suppressed(s.history, s.streams[i].data.scope)
    {
      HiddenIsSuppressed(s, s.streams[i].data.scope);
    }
  }

  lemma LastNewestIsNewest(rows: seq<StreamRow>, i: int)
    requires IsLastNewest(rows, i)
    ensures IsNewest(rows, rows[i])
  {
    forall q | q in rows && q.key == rows[i].key
      ensures q.version <= rows[i].version
    {
      var j :| 0 <= j < |rows| && rows[j] == q;
      assert Yields(rows, j, i);
    }
  }

  /** Where row `i` stands once row `k` is taken away. */
  function Moved(i: int, k: int): int
  {
    if i < k then i else i - 1
  }

  lemma RowsMove(rows: seq<StreamRow>, k: nat)
    requires k < |rows|
    ensures forall i | 0 <= i < |rows| && i != k :: 0 <= Moved(i, k) < |rows| - 1 && Without(rows, k)[Moved(i, k)] == rows[i]
  {
  }

  lemma StaysLast(rows: seq<StreamRow>, k: nat, i: int)
    requires k < |rows| && i != k && IsLastNewest(rows, i)
    ensures IsLastNewest(Without(rows, k), Moved(i, k))
  {
    var rest := Without(rows, k);
    RowsMove(rows, k);
    forall m | 0 <= m < |rest| && rest[m].key == rows[i].key
      ensures Yields(rest, m, Moved(i, k))
    {
      var was := if m < k then m else m + 1;
      assert rest[m] == rows[was] && Yields(rows, was, i);
    }
  }

  /** No row takes the place of one that was outdone. */
  lemma WasLast(rows: seq<StreamRow>, k: nat, i: int)
    requires k < |rows| && 0 <= i < |rows| && i != k && IsLastNewest(Without(rows, k), Moved(i, k))
    requires rows[k].key != rows[i].key || exists j :: Outdone(rows, k, j)
    ensures IsLastNewest(rows, i)
  {
    var rest := Without(rows, k);
    RowsMove(rows, k);
    forall m | 0 <= m < |rows| && m != k && rows[m].key == rows[i].key
      ensures Yields(rows, m, i)
    {
      assert Yields(rest, Moved(m, k), Moved(i, k));
    }
    if rows[k].key == rows[i].key {
      var j :| Outdone(rows, k, j);
      assert Yields(rows, j, i);
    }
  }

  /** A row that is hidden or outdone may go; the others of its stream show as before. */
  lemma MovedIsShown(s: Sys, k: nat, s': Sys, stream: Stream, i: int)
    requires s'.history == s.history && k < |s.streams| && s'.streams == Without(s.streams, k) && 0 <= i < |s.streams| && i != k
    requires s.streams[i].key == s.streams[k].key ==> s.streams[i].data.scope == s.streams[k].data.scope
    requires Suppressed(s.history, s.streams[k].data.scope) || exists j :: Outdone(s.streams, k, j)
    ensures ShownLast(s', stream, Moved(i, k)) <==> ShownLast(s, stream, i)
  {
    hide Suppressed, IsLastNewest, Outdone;
    RowsMove(s.streams, k);
    if ShownLast(s, stream, i) {
      StaysLast(s.streams, k, i);
    }
    if ShownLast(s', stream, Moved(i, k)) {
      WasLast(s.streams, k, i);
    }
  }

  lemma RemovalKeepsLastView(s: Sys, k: nat, s': Sys, stream: Stream)
    requires Inv(s) && Inv(s') && s'.history == s.history && k < |s.streams| && s'.streams == Without(s.streams, k)
    requires Suppressed(s.history, s.streams[k].data.scope) || exists j :: Outdone(s.streams, k, j)
    ensures LastViewOf(s', stream) == LastViewOf(s, stream)
  {
    hide Inv, LastViewOf, Suppressed, IsLastNewest, Outdone;
    RowsMove(s.streams, k);
    forall i | 0 <= i < |s.streams| && i != k
      ensures ShownLast(s', stream, Moved(i, k)) <==> ShownLast(s, stream, i)
    {
      if s.streams[i].key == s.streams[k].key {
        SameScope(s, s.streams[i], s.streams[k]);
      }
      MovedIsShown(s, k, s', stream, i);
    }
    OutdoneIsNotLast(s, stream, k);
    forall v
      ensures v in LastViewOf(s', stream) <==> v in LastViewOf(s, stream)
    {
      LastViewIsUnsuppressed(s, stream, v);
      LastViewIsUnsuppressed(s', stream, v);
      if i :| ShownLast(s, stream, i) && v == Visible(s.streams[i]) {
        assert ShownLast(s', stream, Moved(i, k)) && s'.streams[Moved(i, k)] == s.streams[i];
      }
      if i' :| ShownLast(s', stream, i') && v == Visible(s'.streams[i']) {
        var i := if i' < k then i' else i' + 1;
        assert Moved(i, k) == i' && ShownLast(s, stream, i) && s'.streams[i'] == s.streams[i];
      }
    }
  }

  lemma OutdoneIsNotLast(s: Sys, stream: Stream, k: nat)
    requires k < |s.streams|
    requires Suppressed(s.history, s.streams[k].data.scope) || exists j :: Outdone(s.streams, k, j)
    ensures !ShownLast(s, stream, k)
  {
    hide Suppressed;
    if j :| Outdone(s.streams, k, j) {
      assert !Yields(s.streams, j, k);
    }
  }

  lemma SameRowsSameLastView(s: Sys, s': Sys, stream: Stream)
    requires Inv(s) && Inv(s') && SameRequests(s.history, s'.history) && s'.streams == s.streams
    ensures LastViewOf(s', stream) == LastViewOf(s, stream)
  {
    hide Inv, LastViewOf, Suppressed, SameRequests, IsLastNewest;
    forall i
      ensures ShownLast(s', stream, i) <==> ShownLast(s, stream, i)
    {
      if 0 <= i < |s.streams| {
        SuppressionsAreSame(s.history, s'.history, s.streams[i].data.scope);
      }
    }
    forall v
      ensures v in LastViewOf(s', stream) <==> v in LastViewOf(s, stream)
    {
      LastViewIsUnsuppressed(s, stream, v);
      LastViewIsUnsuppressed(s', stream, v);
    }
  }

  /** A merge of stream rows that keeps the row inserted last of those of the greatest version. */
  predicate KeepsLast(s: Sys, a: Action)
  {
    a.ByMerge? && a.merge.MergeStreams? ==> Outdone(s.streams, a.merge.i, a.merge.j)
  }

  /**
   Where equal versions are decided by the last insert, in FINAL and in merges,
   nothing in the background changes what a view returns, whatever was ingested.
   */
  lemma LastViewsAreTransparent(run: seq<Sys>, actions: seq<Action>, i: nat, stream: Stream)
    requires IsRun(run, actions) && i < |actions| && InBackground(actions[i]) && KeepsLast(run[i], actions[i])
    ensures LastViewOf(run[i + 1], stream) == LastViewOf(run[i], stream)
  {
    RunInv(run, actions, i);
    RunInv(run, actions, i + 1);
    StepOfRun(run, actions, i);
    hide IsRun, Inv, LastViewOf, Next, InBackground, KeepsLast;
    NextKeepsLastView(run[i], actions[i], run[i + 1], stream);
  }

  lemma NextKeepsLastView(s: Sys, a: Action, s': Sys, stream: Stream)
    requires Inv(s) && Next(s, a, s') && Inv(s') && InBackground(a) && KeepsLast(s, a)
    ensures LastViewOf(s', stream) == LastViewOf(s, stream)
  {
    hide Inv, LastViewOf, WorkerEnabled, WorkerApply, MutationEnabled, MutationApply, Outdone, SameRequests, Suppressed;
    match a
    case ByWorker(k) =>
      WorkerKeepsRequests(s, k);
      WorkerLedger(s, k);
      SameRowsSameLastView(s, s', stream);
    case ByMutation(m, index) => MutationKeepsLastView(s, m, index, s', stream);
    case ByMerge(m) =>
      SameIsSame(s.history);
      if m.MergeStreams? {
        assert Outdone(s.streams, m.i, m.j);
        RemovalKeepsLastView(s, m.i, s', stream);
      } else {
        SameRowsSameLastView(s, s', stream);
      }
    case _ =>
  }

  lemma MutationKeepsLastView(s: Sys, mutation: nat, index: nat, s': Sys, stream: Stream)
    requires Inv(s) && MutationEnabled(s, mutation, index) && s' == MutationApply(s, mutation, index) && Inv(s')
    ensures LastViewOf(s', stream) == LastViewOf(s, stream)
  {
    hide Inv, LastViewOf, MutationApply, RowCovered, Suppressed, SameRequests, TablesOf, DeletionRequested;
    MutationLedger(s, mutation, index);
    RemovedByRequest(s, s.mutations[mutation], index);
    SameIsSame(s.history);
    if TableOf(s.mutations[mutation]).StreamTable? {
      RemovalKeepsLastView(s, index, s', stream);
    } else {
      SameRowsSameLastView(s, s', stream);
    }
  }

  /** Both readings of FINAL show the same exactly when the view is settled. */
  lemma ReadingsAgreeExactly(s: Sys, stream: Stream)
    requires Inv(s)
    ensures LastViewOf(s, stream) == ViewOf(s, stream) <==> Settled(s, stream)
  {
    hide Inv, LastViewOf, ViewOf, Suppressed, IsNewest;
    if LastViewOf(s, stream) == ViewOf(s, stream) {
      forall a, b | IsNewest(s.streams, a) && IsNewest(s.streams, b) && a.key == b.key && a.key.stream == stream
                    && !Suppressed(s.history, a.data.scope)
        ensures a.data.payload == b.data.payload
      {
        BothShown(s, stream, a, b);
      }
    }
    if Settled(s, stream) {
      forall v
        ensures v in LastViewOf(s, stream) <==> v in ViewOf(s, stream)
      {
        LastIsShown(s, stream, v);
      }
    }
  }

  lemma LastIsShown(s: Sys, stream: Stream, v: ViewRow)
    requires Inv(s) && Settled(s, stream)
    ensures v in LastViewOf(s, stream) <==> v in ViewOf(s, stream)
  {
    hide Inv, LastViewOf, ViewOf, Suppressed, IsNewest, IsLastNewest;
    LastViewIsUnsuppressed(s, stream, v);
    ViewIsUnsuppressed(s, stream, v);
    if i :| ShownLast(s, stream, i) && v == Visible(s.streams[i]) {
      LastNewestIsNewest(s.streams, i);
    }
    if r :| IsNewest(s.streams, r) && r.key.stream == stream && !Suppressed(s.history, r.data.scope) && v == Visible(r) {
      NewestIsStored(s.streams, r);
      var i := LastOfKey(s.streams, r);
      InBounds(s.streams, i);
      LastNewestIsNewest(s.streams, i);
      SameScope(s, s.streams[i], r);
      assert ShownLast(s, stream, i) && Visible(s.streams[i]) == Visible(r);
    }
  }

  lemma InBounds(rows: seq<StreamRow>, i: int)
    requires IsLastNewest(rows, i)
    ensures 0 <= i < |rows|
  {
  }

  lemma OneIsLast(rows: seq<StreamRow>, i: int, j: int)
    requires IsLastNewest(rows, i) && IsLastNewest(rows, j) && rows[i].key == rows[j].key
    ensures i == j
  {
    assert Yields(rows, i, j) && Yields(rows, j, i);
  }

  lemma BothShown(s: Sys, stream: Stream, a: StreamRow, b: StreamRow)
    requires Inv(s) && LastViewOf(s, stream) == ViewOf(s, stream)
    requires IsNewest(s.streams, a) && IsNewest(s.streams, b) && a.key == b.key && a.key.stream == stream
    requires !Suppressed(s.history, a.data.scope)
    ensures a.data.payload == b.data.payload
  {
    hide Inv, LastViewOf, ViewOf, Suppressed, IsNewest, IsLastNewest;
    NewestIsStored(s.streams, a);
    NewestIsStored(s.streams, b);
    SameScope(s, a, b);
    ViewIsUnsuppressed(s, stream, Visible(a));
    ViewIsUnsuppressed(s, stream, Visible(b));
    LastViewIsUnsuppressed(s, stream, Visible(a));
    LastViewIsUnsuppressed(s, stream, Visible(b));
    var i :| ShownLast(s, stream, i) && Visible(a) == Visible(s.streams[i]);
    var j :| ShownLast(s, stream, j) && Visible(b) == Visible(s.streams[j]);
    OneIsLast(s.streams, i, j);
  }

  /** Every stored key has a row that is newest and last. */
  lemma {:induction false} LastOfKey(rows: seq<StreamRow>, r: StreamRow) returns (i: int)
    requires r in rows
    ensures IsLastNewest(rows, i) && rows[i].key == r.key
    decreases |rows|
  {
    var last := |rows| - 1;
    var front := rows[..last];
    if q :| q in front && q.key == r.key {
      var f := LastOfKey(front, q);
      assert forall j | 0 <= j < last && rows[j].key == r.key :: Yields(front, j, f) && Yields(rows, j, f);
      i := if rows[last].key == r.key && rows[last].version >= rows[f].version then last else f;
    } else {
      i := last;
      assert rows == front + [rows[last]];
      assert forall j | 0 <= j < last :: rows[j] in front;
    }
  }

  // ---------- What is shown ----------

  /** Once a request's row is stored, no view ever shows a row of a scope it covers. */
  lemma SuppressedNeverReappears(
    run: seq<Sys>, actions: seq<Action>, i: nat, j: nat, request: SuppressionRow, stream: Stream, v: ViewRow)
    requires IsRun(run, actions) && i <= j < |run|
    requires request in run[i].suppressions && v in ViewOf(run[j], stream)
    ensures !Concerns(request.data.scope, v.scope)
  {
    StaysSuppressed(run, actions, i, j, request);
    RunInv(run, actions, j);
    hide IsRun, Inv, Concerns, Suppressed, ViewOf, IsNewest;
    ViewIsUnsuppressed(run[j], stream, v);
  }

  lemma OnceIsShown(s: Sys, batch: Batch, record: Record) returns (payload: string)
    requires Inv(s) && OnceUnderFinal(s.streams, batch, record) && !Suppressed(s.history, batch.scope) && record in batch.records
    ensures Record(record.id, payload) in batch.records && (DistinctIds(batch) ==> payload == record.payload)
    ensures ViewRow(StreamKeyOf(batch, record.id), batch.scope, payload) in ViewOf(s, batch.stream)
  {
    hide Inv, Suppressed, ViewOf, DistinctIds, IsNewest;
    var r :| r in s.streams && IsNewest(s.streams, r) && Carries(r, batch, record);
    payload := r.data.payload;
    if DistinctIds(batch) {
      CarriesIsCopy(r, batch, record);
    }
    ViewIsUnsuppressed(s, batch.stream, Visible(r));
    assert ViewRow(StreamKeyOf(batch, record.id), batch.scope, payload) == Visible(r);
  }

  lemma ShownIsOnce(s: Sys, batch: Batch, record: Record, stream: Stream, v: ViewRow)
    requires Inv(s) && OnceUnderFinal(s.streams, batch, record) && record in batch.records
    requires v in ViewOf(s, stream) && v.key.product == batch.scope.product && v.key.record == record.id
    ensures stream == batch.stream && v.key == StreamKeyOf(batch, record.id) && v.scope == batch.scope
    ensures Record(record.id, v.payload) in batch.records && (DistinctIds(batch) ==> v.payload == record.payload)
  {
    hide Inv, Suppressed, ViewOf, DistinctIds, IsNewest;
    ViewIsUnsuppressed(s, stream, v);
    var q :| IsNewest(s.streams, q) && q.key.stream == stream && v == Visible(q);
    NewestIsStored(s.streams, q);
    assert Visible(q) == ViewRow(q.key, q.data.scope, q.data.payload);
    assert Carries(q, batch, record);
    if DistinctIds(batch) {
      CarriesIsCopy(q, batch, record);
    }
  }

  lemma NewestIsStored(streams: seq<StreamRow>, r: StreamRow)
    requires IsNewest(streams, r)
    ensures r in streams
  {
  }

  /** An accepted body in a scope nobody suppressed is shown, record by record. */
  lemma AcceptedIsShown(run: seq<Sys>, actions: seq<Action>, i: nat, d: Digest, record: Record) returns (payload: string)
    requires IsRun(run, actions) && i < |run|
    requires d in Accepted(run[i]) && !Suppressed(run[i].history, d.batch.scope) && record in d.batch.records
    ensures Record(record.id, payload) in d.batch.records && (DistinctIds(d.batch) ==> payload == record.payload)
    ensures ViewRow(StreamKeyOf(d.batch, record.id), d.batch.scope, payload) in ViewOf(run[i], d.batch.stream)
  {
    hide IsRun, Inv, Suppressed, ViewOf, DistinctIds, Accepted, OnceUnderFinal;
    AcceptedIsOnce(run, actions, i, d, record);
    RunInv(run, actions, i);
    payload := OnceIsShown(run[i], d.batch, record);
  }

  /** And no view shows one of its record IDs with anything else. */
  lemma ShownIsAccepted(run: seq<Sys>, actions: seq<Action>, i: nat, d: Digest, record: Record, stream: Stream, v: ViewRow)
    requires IsRun(run, actions) && i < |run|
    requires d in Accepted(run[i]) && record in d.batch.records
    requires v in ViewOf(run[i], stream) && v.key.product == d.batch.scope.product && v.key.record == record.id
    ensures stream == d.batch.stream && v.key == StreamKeyOf(d.batch, record.id) && v.scope == d.batch.scope
    ensures Record(record.id, v.payload) in d.batch.records && (DistinctIds(d.batch) ==> v.payload == record.payload)
  {
    hide IsRun, Inv, Suppressed, ViewOf, DistinctIds, Accepted, OnceUnderFinal;
    AcceptedIsOnce(run, actions, i, d, record);
    RunInv(run, actions, i);
    ShownIsOnce(run[i], d.batch, record, stream, v);
  }
}
