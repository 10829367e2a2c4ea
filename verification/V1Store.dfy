/**
 V1 ingest: the store's `Insert`, under `v1Mu`.
 */
module V1Store {
  import opened Tables
  import opened Telemetry
  import opened Protocol
  import opened History
  import opened Invariant
  import opened Facts
  import opened MutationSteps
  import opened Safety
  import opened Exactly
  import opened Atomic
  import opened Database
  import Store

  /** A row of the key, at least as new as `at`. */
  ghost predicate KeyStored(rows: seq<V1Row>, key: V1Key, at: int)
  {
    exists r :: r in rows && r.key == key && r.version >= at
  }

  /** Every item of the list, sent at `at`, has its row in the table or, after a merge, one that is no older. */
  ghost predicate AllStored(rows: seq<V1Row>, table: Table, items: seq<V1Item>, at: int)
  {
    forall e | e in items :: KeyStored(rows, V1Key(table, e.installation, e.id), at)
  }

  /** The row of an item: its installation, ID and payload, as of `at`. */
  ghost predicate IsRowOf(r: V1Row, table: Table, item: V1Item, at: int)
  {
    && r.key.table == table && r.key.installation == item.installation && r.key.id == item.id
    && r.version == at && r.data == item.payload
  }

  /** Every item of the list has its own row. */
  ghost predicate AllSent(rows: seq<V1Row>, table: Table, items: seq<V1Item>, at: int)
  {
    forall e | e in items :: exists r :: r in rows && IsRowOf(r, table, e, at)
  }

  /** Nothing is new but rows of the batch. */
  ghost predicate AddsOnlyItems(rows: seq<V1Row>, rows': seq<V1Row>, batch: V1Batch, at: int)
  {
    forall r | r in rows' ::
      || r in rows
      || (exists e :: e in batch.events && IsRowOf(r, EventsTable, e, at))
      || (exists e :: e in batch.summaries && IsRowOf(r, SummariesTable, e, at))
  }

  lemma AddsOnlyMore(rows: seq<V1Row>, rows': seq<V1Row>, rows'': seq<V1Row>, batch: V1Batch, at: int)
    requires AddsOnlyItems(rows, rows', batch, at) && AddsOnlyItems(rows', rows'', batch, at)
    ensures AddsOnlyItems(rows, rows'', batch, at)
  {
    hide IsRowOf;
  }

  // ---------- Stored items stay ----------

  lemma MergeKeepsKey(s: Sys, a: MergeAction, key: V1Key, at: int)
    requires MergeEnabled(s, a) && KeyStored(s.v1Rows, key, at)
    ensures KeyStored(MergeApply(s, a).v1Rows, key, at)
  {
    if a.MergeV1? {
      var r :| r in s.v1Rows && r.key == key && r.version >= at;
      WithoutKeeps(s.v1Rows, a.i);
      if r == s.v1Rows[a.i] {
        assert s.v1Rows[a.j].key == key && s.v1Rows[a.j] in MergeApply(s, a).v1Rows;
      }
    }
  }

  lemma LegacyRequestSuppresses(history: map<RequestKey, seq<SuppressionRow>>, key: RequestKey)
    requires key in history && history[key] != []
    ensures history[key][0].data.legacyInstallation.Some? ==>
              LegacySuppressed(history, history[key][0].data.legacyInstallation.value)
  {
  }

  lemma MutationKeepsKey(s: Sys, mutation: nat, index: nat, key: V1Key, at: int)
    requires Inv(s) && MutationEnabled(s, mutation, index) && KeyStored(s.v1Rows, key, at)
    requires !LegacySuppressed(s.history, key.installation)
    ensures KeyStored(MutationApply(s, mutation, index).v1Rows, key, at)
  {
    hide Inv, DeleteMatches, TablesOf, Suppressed;
    var m := s.mutations[mutation];
    RemovedByRequest(s, m, index);
    var r :| r in s.v1Rows && r.key == key && r.version >= at;
    if TableOf(m) in {EventsTable, SummariesTable} {
      WithoutKeeps(s.v1Rows, index);
      assert r != s.v1Rows[index];
    }
  }

  lemma OthersKeepKey(s: Sys, a: Action, s': Sys, key: V1Key, at: int)
    requires Inv(s) && Next(s, a, s') && !a.ByV1? && KeyStored(s.v1Rows, key, at)
    requires !LegacySuppressed(s.history, key.installation)
    ensures KeyStored(s'.v1Rows, key, at)
  {
    hide Inv, WorkerEnabled, WorkerApply, MutationEnabled;
    match a
    case ByWriter(w) => WriterKeepsV1(s, w);
    case ByWorker(k) => WorkerLedger(s, k);
    case ByMerge(m) => MergeKeepsKey(s, m, key, at);
    case ByMutation(m, i) => MutationKeepsKey(s, m, i, key, at);
  }

  lemma WriterKeepsV1(s: Sys, a: WriterAction)
    requires WriterEnabled(s, a)
    ensures WriterApply(s, a).v1Rows == s.v1Rows && WriterApply(s, a).v1 == s.v1
  {
    hide FinalRead;
  }

  lemma WorkerKeepsV1(s: Sys, a: WorkerAction)
    requires WorkerEnabled(s, a)
    ensures WorkerApply(s, a).v1 == s.v1
  {
    hide Finished, TablesOf, FinalRead;
  }

  lemma MutationKeepsV1(s: Sys, mutation: nat, index: nat)
    requires MutationEnabled(s, mutation, index)
    ensures MutationApply(s, mutation, index).v1 == s.v1
  {
    hide RowCovered;
  }

  lemma OthersKeepV1(s: Sys, a: Action, s': Sys)
    requires Next(s, a, s') && !a.ByV1?
    ensures s'.v1 == s.v1
  {
    hide WriterEnabled, WriterApply, WorkerEnabled, WorkerApply, MutationEnabled;
    match a
    case ByWriter(w) => WriterKeepsV1(s, w);
    case ByWorker(k) => WorkerKeepsV1(s, k);
    case ByMerge(m) =>
    case ByMutation(m, i) => MutationKeepsV1(s, m, i);
  }

  /** While the summaries are outstanding, the events stay stored: nobody may suppress them meanwhile. */
  lemma {:induction false} EventsStay(run: seq<Sys>, actions: seq<Action>, i: nat, j: nat, batch: V1Batch, at: int)
    requires |run| == |actions| + 1 && IsRun(run, actions) && i <= j < |run|
    requires forall m | i <= m < j :: !actions[m].ByV1?
    requires run[i].v1 == V1Events(batch) && AllStored(run[i].v1Rows, EventsTable, batch.events, at)
    ensures run[j].v1 == V1Events(batch) && AllStored(run[j].v1Rows, EventsTable, batch.events, at)
    decreases j
  {
    hide Inv, Next;
    if i < j {
      EventsStay(run, actions, i, j - 1, batch, at);
      RunInv(run, actions, j - 1);
      StepOfRun(run, actions, j - 1);
      OthersKeepV1(run[j - 1], actions[j - 1], run[j]);
      forall e | e in batch.events
        ensures KeyStored(run[j].v1Rows, V1Key(EventsTable, e.installation, e.id), at)
      {
        MentionedIsFree(run[j - 1], batch, e.installation);
        OthersKeepKey(run[j - 1], actions[j - 1], run[j], V1Key(EventsTable, e.installation, e.id), at);
      }
    }
  }

  /** Nobody asked to delete an installation of a batch under way. */
  lemma MentionedIsFree(s: Sys, batch: V1Batch, installation: string)
    requires Inv(s) && (s.v1 == V1Cleared(batch) || s.v1 == V1Events(batch)) && Mentions(batch, installation)
    ensures !LegacySuppressed(s.history, installation)
  {
    hide ChainOk, HistoryOk, ErasureOk, CompletedIsWritten, WriterOk, DeleterOk;
  }

  lemma OthersAddNoV1(s: Sys, a: Action, s': Sys)
    requires Next(s, a, s') && !a.ByV1?
    ensures forall r | r in s'.v1Rows :: r in s.v1Rows
  {
    hide WriterEnabled, WriterApply, WorkerEnabled, WorkerApply, RowCovered, Dominated, Without;
    match a
    case ByWriter(w) => WriterKeepsV1(s, w);
    case ByWorker(k) => WorkerLedger(s, k);
    case ByMerge(m) =>
      if m.MergeV1? {
        Store.IsIndex(s.v1Rows, m.i, m.j);
        WithoutKeeps(s.v1Rows, m.i);
      }
    case ByMutation(m, i) => MutationAddsNoV1(s, m, i);
  }

  lemma MutationAddsNoV1(s: Sys, mutation: nat, index: nat)
    requires MutationEnabled(s, mutation, index)
    ensures forall r | r in MutationApply(s, mutation, index).v1Rows :: r in s.v1Rows
  {
    hide Without, DeleteMatches, TablesOf;
    if TableOf(s.mutations[mutation]) in {EventsTable, SummariesTable} {
      WithoutKeeps(s.v1Rows, index);
    }
  }

  lemma {:induction false} OthersRunAddNoV1(run: seq<Sys>, actions: seq<Action>, i: nat, j: nat)
    requires |run| == |actions| + 1 && IsRun(run, actions) && i <= j < |run|
    requires forall m | i <= m < j :: !actions[m].ByV1?
    ensures forall r | r in run[j].v1Rows :: r in run[i].v1Rows
    decreases j
  {
    hide IsRun, Next;
    if i < j {
      OthersRunAddNoV1(run, actions, i, j - 1);
      StepOfRun(run, actions, j - 1);
      OthersAddNoV1(run[j - 1], actions[j - 1], run[j]);
    }
  }

  // ---------- Insert ----------

  datatype V1Result = V1Inserted | V1Suppressed | V1Failed

  class V1Store {
    const db: Connection

    constructor (db: Connection)
      ensures this.db == db
    {
      this.db := db;
    }

    /** Stores a V1 batch, unless someone asked to delete one of its installations. */
    method Insert(batch: V1Batch) returns (result: V1Result, ghost at: int)
      requires db.Valid() && db.v1 == V1Idle && !HoldsV1(db.writer)
      modifies db
      ensures db.Valid() && db.v1 == V1Idle && Continues(old(db.run), old(db.actions), db.run, db.actions)
      ensures result.V1Inserted? ==>
                AllStored(db.v1Rows, EventsTable, batch.events, at) && AllSent(db.v1Rows, SummariesTable, batch.summaries, at)
      ensures AddsOnlyItems(old(db.v1Rows), db.v1Rows, batch, at)
      ensures result.V1Suppressed? ==> db.v1Rows == old(db.v1Rows)
      ensures result.V1Inserted? ==> forall x | Mentions(batch, x) :: !LegacySuppressed(db.history, x)
      ensures result.V1Suppressed? ==> exists x :: Mentions(batch, x) && LegacySuppressed(db.history, x)
      ensures db.reliable ==> !result.V1Failed?
    {
      hide Init, Next, Continues, AllStored, AllSent, AddsOnlyItems, Mentions;
      ghost var run0, actions0, rows0 := db.run, db.actions, db.v1Rows;
      at := 0;
      NothingAdded(db.v1Rows, batch, at);
      var ok, suppressed := BatchSuppressed(batch);
      if !ok {
        return V1Failed, at;
      }
      if suppressed {
        return V1Suppressed, at;
      }
      ghost var run1, actions1 := db.run, db.actions;
      Pause(batch, 0);
      Store.ContinuesOn(run0, actions0, run1, actions1, db.run, db.actions);
      var ingestedAt := Now();
      at := ingestedAt;
      FewerRows(rows0, db.v1Rows, batch, at);
      ghost var rows1 := db.v1Rows;
      run1, actions1 := db.run, db.actions;
      ok := InsertEvents(batch, ingestedAt);
      Store.ContinuesOn(run0, actions0, run1, actions1, db.run, db.actions);
      AddsOnlyMore(rows0, rows1, db.v1Rows, batch, at);
      if !ok {
        return V1Failed, at;
      }
      rows1, run1, actions1 := db.v1Rows, db.run, db.actions;
      Pause(batch, ingestedAt);
      Store.ContinuesOn(run0, actions0, run1, actions1, db.run, db.actions);
      FewerRows(rows1, db.v1Rows, batch, at);
      AddsOnlyMore(rows0, rows1, db.v1Rows, batch, at);
      rows1, run1, actions1 := db.v1Rows, db.run, db.actions;
      ok := InsertSummaries(batch, ingestedAt);
      Store.ContinuesOn(run0, actions0, run1, actions1, db.run, db.actions);
      AddsOnlyMore(rows0, rows1, db.v1Rows, batch, at);
      result := if ok then V1Inserted else V1Failed;
    }

    /** Between two statements the rest of the system runs on. */
    method Pause(ghost batch: V1Batch, ghost at: int)
      requires db.Valid()
      requires db.v1 == V1Cleared(batch) || (db.v1 == V1Events(batch) && AllStored(db.v1Rows, EventsTable, batch.events, at))
      modifies db
      ensures db.Valid() && Continues(old(db.run), old(db.actions), db.run, db.actions)
      ensures db.v1 == old(db.v1)
      ensures old(db.v1).V1Events? ==> AllStored(db.v1Rows, EventsTable, batch.events, at)
      ensures forall r | r in db.v1Rows :: r in old(db.v1Rows)
    {
      hide Init, Next, AllStored;
      db.OthersRunBesideV1();
      assert db.run[|old(db.actions)|] == db.run[..|old(db.run)|][|old(db.actions)|];
      OthersRunAddNoV1(db.run, db.actions, |old(db.actions)|, |db.actions|);
      if db.v1.V1Events? {
        EventsStay(db.run, db.actions, |old(db.actions)|, |db.actions|, batch, at);
      }
    }

    /** Collects the installations of the batch and asks for suppressed ones, if there are any to ask for. */
    method BatchSuppressed(batch: V1Batch) returns (ok: bool, suppressed: bool)
      requires db.Valid() && db.v1 == V1Idle && !HoldsV1(db.writer)
      modifies db`v1, db`run, db`actions
      ensures db.Valid() && Continues(old(db.run), old(db.actions), db.run, db.actions)
      ensures db.v1 == if ok && !suppressed then V1Cleared(batch) else V1Idle
      ensures ok && suppressed ==> exists x :: Mentions(batch, x) && LegacySuppressed(db.history, x)
      ensures db.reliable ==> ok
    {
      hide IsRun, CounterFits, AtomicStep, Inv, Accepted, LegacySuppressed;
      var installations := CollectInstallations(batch);
      suppressed := false;
      ghost var hit := None;
      if |installations| > 0 {
        ok := Reaches(db.reliable);
        if !ok {
          Store.ContinuesSame(db.run, db.actions);
          return;
        }
        suppressed, hit := AnyLegacyHit(db.suppressions, batch, installations);
      } else {
        ok := true;
        assert forall r :: LegacyHit(r, batch) ==> r.data.legacyInstallation.value in installations;
      }
      db.v1 := if suppressed then V1Idle else V1Cleared(batch);
      db.Record(ByV1(CheckV1(batch, hit)));
      LegacyHitIsSuppressed(db.run, db.actions, batch, hit);
    }

    method InsertEvents(batch: V1Batch, at: int) returns (ok: bool)
      requires db.Valid() && db.v1 == V1Cleared(batch)
      modifies db`v1, db`run, db`actions, db`v1Rows
      ensures db.Valid() && Continues(old(db.run), old(db.actions), db.run, db.actions)
      ensures db.v1 == if ok then V1Events(batch) else V1Idle
      ensures ok ==> AllStored(db.v1Rows, EventsTable, batch.events, at) && AllSent(db.v1Rows, EventsTable, batch.events, at)
      ensures AddsOnlyItems(old(db.v1Rows), db.v1Rows, batch, at)
      ensures db.reliable ==> ok
    {
      hide IsRun, CounterFits, AtomicStep, Inv, Accepted, AllStored, AllSent, AddsOnlyItems;
      var outcome, stored := Acked, [];
      if |batch.events| > 0 {
        var prepared := PrepareRows(EventsTable, batch.events, at);
        stored, outcome := Send(prepared, db.reliable);
      }
      ok := outcome == Acked;
      db.v1Rows := db.v1Rows + stored;
      db.v1 := if ok then V1Events(batch) else V1Idle;
      if ok {
        SentIsStored(old(db.v1Rows), EventsTable, batch.events, at, stored);
      }
      SendsOnlyItems(old(db.v1Rows), EventsTable, batch, at, stored);
      db.Record(ByV1(SendEvents(at, stored, outcome)));
    }

    method InsertSummaries(batch: V1Batch, at: int) returns (ok: bool)
      requires db.Valid() && db.v1 == V1Events(batch) && AllStored(db.v1Rows, EventsTable, batch.events, at)
      modifies db`v1, db`run, db`actions, db`v1Rows
      ensures db.Valid() && Continues(old(db.run), old(db.actions), db.run, db.actions)
      ensures db.v1 == V1Idle
      ensures AllStored(db.v1Rows, EventsTable, batch.events, at)
      ensures ok ==> AllSent(db.v1Rows, SummariesTable, batch.summaries, at)
      ensures AddsOnlyItems(old(db.v1Rows), db.v1Rows, batch, at)
      ensures forall x | Mentions(batch, x) :: !LegacySuppressed(db.history, x)
      ensures db.reliable ==> ok
    {
      hide IsRun, CounterFits, AtomicStep, Inv, Accepted, AllStored, AllSent, AddsOnlyItems, LegacySuppressed;
      var outcome, stored := Acked, [];
      if |batch.summaries| > 0 {
        var prepared := PrepareRows(SummariesTable, batch.summaries, at);
        stored, outcome := Send(prepared, db.reliable);
      }
      ok := outcome == Acked;
      BatchIsFree(db.run, db.actions, batch);
      StoredGrows(db.v1Rows, stored, EventsTable, batch.events, at);
      db.v1Rows := db.v1Rows + stored;
      db.v1 := V1Idle;
      if ok {
        SentIsStored(old(db.v1Rows), SummariesTable, batch.summaries, at, stored);
      }
      SendsOnlyItems(old(db.v1Rows), SummariesTable, batch, at, stored);
      db.Record(ByV1(SendSummaries(at, stored, outcome)));
    }
  }

  lemma BatchIsFree(run: seq<Sys>, actions: seq<Action>, batch: V1Batch)
    requires |run| == |actions| + 1 && IsRun(run, actions) && run[|run| - 1].v1 == V1Events(batch)
    ensures forall x | Mentions(batch, x) :: !LegacySuppressed(run[|run| - 1].history, x)
  {
    hide IsRun, Inv;
    RunInv(run, actions, |run| - 1);
    forall x | Mentions(batch, x)
      ensures !LegacySuppressed(run[|run| - 1].history, x)
    {
      MentionedIsFree(run[|run| - 1], batch, x);
    }
  }

  lemma StoredGrows(rows: seq<V1Row>, more: seq<V1Row>, table: Table, items: seq<V1Item>, at: int)
    requires AllStored(rows, table, items, at)
    ensures AllStored(rows + more, table, items, at)
  {
    forall e | e in items
      ensures KeyStored(rows + more, V1Key(table, e.installation, e.id), at)
    {
      var r :| r in rows && r.key == V1Key(table, e.installation, e.id) && r.version >= at;
      assert r in rows + more;
    }
  }

  lemma SentIsStored(rows: seq<V1Row>, table: Table, items: seq<V1Item>, at: int, stored: seq<V1Row>)
    requires Sent(V1Rows(table, items, at), stored, Acked)
    ensures AllStored(rows + stored, table, items, at) && AllSent(rows + stored, table, items, at)
  {
    forall e | e in items
      ensures KeyStored(rows + stored, V1Key(table, e.installation, e.id), at)
      ensures exists r :: r in rows + stored && IsRowOf(r, table, e, at)
    {
      var i :| 0 <= i < |items| && items[i] == e;
      assert V1Rows(table, items, at)[i] in V1Rows(table, items, at);
      assert V1RowFor(table, e, at) in rows + stored && IsRowOf(V1RowFor(table, e, at), table, e, at);
    }
  }

  lemma SendsOnlyItems(rows: seq<V1Row>, table: Table, batch: V1Batch, at: int, stored: seq<V1Row>)
    requires table == EventsTable || table == SummariesTable
    requires var items := if table == EventsTable then batch.events else batch.summaries;
             forall r | r in stored :: r in V1Rows(table, items, at)
    ensures AddsOnlyItems(rows, rows + stored, batch, at)
  {
    var items := if table == EventsTable then batch.events else batch.summaries;
    forall r | r in stored
      ensures exists e :: e in items && IsRowOf(r, table, e, at)
    {
      var i :| 0 <= i < |items| && V1Rows(table, items, at)[i] == r;
      assert items[i] in items && IsRowOf(r, table, items[i], at);
    }
  }

  lemma NothingAdded(rows: seq<V1Row>, batch: V1Batch, at: int)
    ensures AddsOnlyItems(rows, rows, batch, at)
  {
  }

  lemma FewerRows(rows: seq<V1Row>, rows': seq<V1Row>, batch: V1Batch, at: int)
    requires forall r | r in rows' :: r in rows
    ensures AddsOnlyItems(rows, rows', batch, at)
  {
  }

  /** A hit of the V1 query names an installation that a stored request covers. */
  lemma LegacyHitIsSuppressed(run: seq<Sys>, actions: seq<Action>, batch: V1Batch, hit: Option<SuppressionRow>)
    requires |run| == |actions| + 1 && IsRun(run, actions)
    requires hit.Some? ==> IsNewest(run[|run| - 1].suppressions, hit.value) && LegacyHit(hit.value, batch)
    ensures hit.Some? ==> exists x :: Mentions(batch, x) && LegacySuppressed(run[|run| - 1].history, x)
  {
    hide IsRun, ChainOk, ErasureOk, WritersOk, DeleterOk, HistoryOk, Mentions;
    RunInv(run, actions, |run| - 1);
    var s := run[|run| - 1];
    if hit.Some? {
      RowInHistory(s.history, s.suppressions, s.maxAttempts, hit.value);
      LegacyRequestSuppresses(s.history, hit.value.key);
    }
  }

  method PrepareRows(table: Table, items: seq<V1Item>, at: int) returns (rows: seq<V1Row>)
    ensures rows == V1Rows(table, items, at)
  {
    rows := [];
    for i := 0 to |items|
      invariant rows == V1Rows(table, items, at)[..i]
    {
      rows := rows + [V1RowFor(table, items[i], at)];
    }
  }

  method CollectInstallations(batch: V1Batch) returns (installations: set<string>)
    ensures forall x :: x in installations <==> Mentions(batch, x)
  {
    installations := {};
    for i := 0 to |batch.events|
      invariant forall x :: x in installations <==> exists e :: e in batch.events[..i] && e.installation == x
    {
      assert batch.events[..i + 1] == batch.events[..i] + [batch.events[i]];
      installations := installations + {batch.events[i].installation};
    }
    assert batch.events[..|batch.events|] == batch.events;
    for i := 0 to |batch.summaries|
      invariant forall x :: x in installations <==>
                  || (exists e :: e in batch.events && e.installation == x)
                  || (exists e :: e in batch.summaries[..i] && e.installation == x)
    {
      assert batch.summaries[..i + 1] == batch.summaries[..i] + [batch.summaries[i]];
      installations := installations + {batch.summaries[i].installation};
    }
    assert batch.summaries[..|batch.summaries|] == batch.summaries;
  }

  /** The count query over `legacy_installation_id IN (...)`, with a row it counted as witness. */
  method AnyLegacyHit(rows: seq<SuppressionRow>, ghost batch: V1Batch, installations: set<string>)
    returns (suppressed: bool, ghost hit: Option<SuppressionRow>)
    requires forall x :: x in installations <==> Mentions(batch, x)
    ensures V1SuppressionRead(rows, batch, hit)
    ensures suppressed <==> exists r :: && r in rows && IsNewest(rows, r) && r.data.active && r.data.legacyInstallation.Some?
                                        && r.data.legacyInstallation.value in installations
  {
    suppressed, hit := false, None;
    for i := 0 to |rows|
      invariant suppressed <==> hit.Some?
      invariant match hit
                case Some(r) => IsNewest(rows, r) && r.data.active && LegacyHit(r, batch)
                case None => forall r | r in rows[..i] && IsNewest(rows, r) :: !(r.data.active && LegacyHit(r, batch))
    {
      assert rows[..i + 1] == rows[..i] + [rows[i]];
      if IsNewest(rows, rows[i]) && rows[i].data.active && rows[i].data.legacyInstallation.Some?
         && rows[i].data.legacyInstallation.value in installations {
        suppressed, hit := true, Some(rows[i]);
      }
    }
    assert rows[..|rows|] == rows;
  }
}
