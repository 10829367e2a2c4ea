/**
 `InsertFundraising`: reservation, events, completion, resumed by a retry after
 any failure.
 */
module FundraisingStore {
  import opened Tables
  import D = Database
  import P = Protocol
  import opened Fundraising

  // ---------- What each statement keeps ----------

  ghost predicate NoRow(ledger: seq<LedgerRow>, id: string)
  {
    forall l | l in ledger :: l.key != id
  }

  /** Every batch ID that had a row has one still, and its rows name the body they named. */
  ghost predicate BodiesStay(ledger: seq<LedgerRow>, ledger': seq<LedgerRow>)
  {
    forall l | l in ledger :: !NoRow(ledger', l.key) && NamesOnly(ledger', l.key, l.data.sha)
  }

  ghost predicate NamesOnly(ledger: seq<LedgerRow>, id: string, sha: Body)
  {
    forall q | q in ledger && q.key == id :: q.data.sha == sha
  }

  lemma BodiesStayOn(ledger: seq<LedgerRow>, ledger': seq<LedgerRow>, ledger'': seq<LedgerRow>)
    requires BodiesStay(ledger, ledger') && BodiesStay(ledger', ledger'')
    ensures BodiesStay(ledger, ledger'')
  {
    forall l | l in ledger
      ensures !NoRow(ledger'', l.key) && NamesOnly(ledger'', l.key, l.data.sha)
    {
      var q :| q in ledger' && q.key == l.key;
      assert NamesOnly(ledger', l.key, l.data.sha) && NamesOnly(ledger'', q.key, q.data.sha);
    }
  }

  lemma BodiesStaySame(ledger: seq<LedgerRow>, events: seq<EventRow>)
    requires Consistent(ledger, events)
    ensures BodiesStay(ledger, ledger)
  {
    hide AllStored, HasOwner;
    forall l, q | l in ledger && q in ledger && q.key == l.key
      ensures q.data.sha == l.data.sha
    {
      assert SameBatch(l, q);
    }
  }

  /** Another row of the same body, or of a batch ID without rows. */
  lemma RowKeepsBodies(ledger: seq<LedgerRow>, row: LedgerRow, outcome: P.Outcome)
    requires LedgerOk(ledger) && NamesOnly(ledger, row.key, row.data.sha)
    ensures BodiesStay(ledger, P.Stored(ledger, row, outcome))
  {
    forall l | l in ledger
      ensures NamesOnly(ledger, l.key, l.data.sha)
    {
      forall q | q in ledger && q.key == l.key
        ensures q.data.sha == l.data.sha
      {
        assert SameBatch(l, q);
      }
    }
  }

  lemma OwnersStay(ledger: seq<LedgerRow>, ledger': seq<LedgerRow>, events: seq<EventRow>)
    requires forall l | l in ledger :: l in ledger'
    requires forall e | e in events :: HasOwner(ledger, e)
    ensures forall e | e in events :: HasOwner(ledger', e)
  {
  }

  lemma ReservationKeeps(ledger: seq<LedgerRow>, events: seq<EventRow>, sha: Body, now: int)
    requires Consistent(ledger, events) && NoRow(ledger, sha.batch.id) && ValidDonations(sha.batch)
    ensures var ledger' := ledger + [LedgerRowFor(sha, Reserved, now)];
            Consistent(ledger', events) && Holds(ledger', sha, now) && CompletedBodies(ledger') == CompletedBodies(ledger)
  {
    hide AllStored, HasOwner;
    OwnersStay(ledger, ledger + [LedgerRowFor(sha, Reserved, now)], events);
  }

  lemma StoredGrows(events: seq<EventRow>, more: seq<EventRow>, batch: Donations)
    requires AllStored(events, batch)
    ensures AllStored(events + more, batch)
  {
    forall event | event in batch.records
      ensures IsStored(events + more, batch, event)
    {
      assert IsStored(events, batch, event);
      var e :| e in events && e.key == EventKey(batch.id, event.id) && e.data == event.details;
      assert e in events + more;
    }
  }

  lemma SendingKeeps(ledger: seq<LedgerRow>, events: seq<EventRow>, sha: Body, at: int, rows: seq<EventRow>)
    requires Consistent(ledger, events) && Holds(ledger, sha, at)
    requires forall r | r in rows :: r in EventRows(sha.batch, at)
    ensures Consistent(ledger, events + rows)
    ensures (forall r | r in EventRows(sha.batch, at) :: r in rows) ==> AllStored(events + rows, sha.batch)
  {
    hide LedgerOk, AllStored;
    forall e | e in events + rows
      ensures HasOwner(ledger, e)
    {
      if e in rows {
        var i :| 0 <= i < |sha.batch.records| && EventRows(sha.batch, at)[i] == e;
        assert LedgerRowFor(sha, Reserved, at) in ledger;
      }
    }
    forall l | l in ledger && l.data.status == Completed
      ensures AllStored(events + rows, l.data.sha.batch)
    {
      StoredGrows(events, rows, l.data.sha.batch);
    }
    if forall r | r in EventRows(sha.batch, at) :: r in rows {
      AllSent(events, sha.batch, at, rows);
    }
  }

  /** A row of an event of the batch, as of `at`, column by column. */
  ghost predicate IsRowOf(e: EventRow, batch: Donations, at: int)
  {
    e.key.batch == batch.id && e.version == at && exists event :: event in batch.records && event.id == e.key.event && event.details == e.data
  }

  lemma RowsAreOf(batch: Donations, at: int)
    ensures forall e | e in EventRows(batch, at) :: IsRowOf(e, batch, at)
  {
    forall e | e in EventRows(batch, at)
      ensures IsRowOf(e, batch, at)
    {
      var i :| 0 <= i < |batch.records| && EventRows(batch, at)[i] == e;
      assert batch.records[i] in batch.records;
    }
  }

  lemma AllSent(events: seq<EventRow>, batch: Donations, at: int, rows: seq<EventRow>)
    requires forall r | r in EventRows(batch, at) :: r in rows
    ensures AllStored(events + rows, batch)
  {
    forall event | event in batch.records
      ensures IsStored(events + rows, batch, event)
    {
      var i :| 0 <= i < |batch.records| && batch.records[i] == event;
      assert EventRows(batch, at)[i] in EventRows(batch, at);
      assert EventRowFor(batch, event, at) in events + rows;
    }
  }

  lemma CompletionKeeps(ledger: seq<LedgerRow>, events: seq<EventRow>, sha: Body, at: int, completedAt: int)
    requires Consistent(ledger, events) && Holds(ledger, sha, at) && AllStored(events, sha.batch) && at < completedAt
    ensures var ledger' := ledger + [LedgerRowFor(sha, Completed, completedAt)];
            Consistent(ledger', events) && CompletedBodies(ledger') == CompletedBodies(ledger) + {sha}
    ensures sha !in CompletedBodies(ledger)
  {
    hide AllStored, HasOwner;
    var row := LedgerRowFor(sha, Completed, completedAt);
    OwnersStay(ledger, ledger + [row], events);
    assert RowOk(LedgerRowFor(sha, Reserved, at));
    assert row in ledger + [row];
    forall l | l in ledger && l.data.status == Completed
      ensures l.data.sha != sha
    {
      assert RowOk(l);
    }
  }

  // ---------- Merges ----------

  lemma MergeKeepsBodies(ledger: seq<LedgerRow>, i: nat, j: nat)
    requires LedgerOk(ledger) && Dominated(ledger, i, j)
    ensures BodiesStay(ledger, Without(ledger, i))
  {
    WithoutKeeps(ledger, i);
    forall l | l in ledger
      ensures !NoRow(Without(ledger, i), l.key) && NamesOnly(Without(ledger, i), l.key, l.data.sha)
    {
      assert ledger[j] in Without(ledger, i) && (l in Without(ledger, i) || l == ledger[i]);
      forall q | q in ledger && q.key == l.key
        ensures q.data.sha == l.data.sha
      {
        assert SameBatch(l, q);
      }
    }
  }

  lemma LedgerMergeKeeps(ledger: seq<LedgerRow>, events: seq<EventRow>, i: nat, j: nat, sha: Body, at: int)
    requires Consistent(ledger, events) && Dominated(ledger, i, j)
    ensures var ledger' := Without(ledger, i);
            && Consistent(ledger', events) && CompletedBodies(ledger') == CompletedBodies(ledger)
            && (Holds(ledger, sha, at) ==> Holds(ledger', sha, at))
            && BodiesStay(ledger, ledger')
  {
    hide AllStored;
    MergeKeepsBodies(ledger, i, j);
    var ledger' := Without(ledger, i);
    WithoutKeeps(ledger, i);
    assert ledger[j] in ledger' && SameBatch(ledger[i], ledger[j]) && SameBatch(ledger[j], ledger[i]);
    assert RowOk(ledger[i]) && RowOk(ledger[j]);
    forall e | e in events
      ensures HasOwner(ledger', e)
    {
      assert HasOwner(ledger, e);
      var l :| l in ledger && l.key == e.key.batch && Event(e.key.event, e.data) in l.data.sha.batch.records;
      if l !in ledger' {
        assert ledger[j].data.sha == l.data.sha;
      }
    }
    forall l | l in ledger && l.data.status == Completed
      ensures l in ledger'
    {
    }
  }

  lemma EventMergeKeeps(ledger: seq<LedgerRow>, events: seq<EventRow>, i: nat, j: nat, batch: Donations)
    requires (forall e | e in events :: HasOwner(ledger, e)) && LedgerOk(ledger) && Dominated(events, i, j)
    requires AllStored(events, batch)
    ensures AllStored(Without(events, i), batch)
  {
    WithoutKeeps(events, i);
    SameKeySameDetails(ledger, events[i], events[j]);
    forall event | event in batch.records
      ensures IsStored(Without(events, i), batch, event)
    {
      assert IsStored(events, batch, event);
      var e :| e in events && e.key == EventKey(batch.id, event.id) && e.data == event.details;
      assert e in Without(events, i) || e == events[i];
    }
  }

  lemma SameKeySameDetails(ledger: seq<LedgerRow>, e: EventRow, f: EventRow)
    requires HasOwner(ledger, e) && HasOwner(ledger, f) && LedgerOk(ledger) && e.key == f.key
    ensures e.data == f.data
  {
    var l :| l in ledger && l.key == e.key.batch && Event(e.key.event, e.data) in l.data.sha.batch.records;
    var q :| q in ledger && q.key == f.key.batch && Event(f.key.event, f.data) in q.data.sha.batch.records;
    OwnerIsUnique(ledger, l, q, Event(e.key.event, e.data), Event(f.key.event, f.data));
  }

  // ---------- The store ----------

  datatype Result = Inserted(count: nat) | Replay(count: nat) | ErrConflict | ErrInvalidStatus | ErrStatement

  class FundraisingStore {
    var ledger: seq<LedgerRow>
    var events: seq<EventRow>
    const reliable: bool

    ghost predicate Valid()
      reads this
    {
      Consistent(ledger, events)
    }

    constructor (reliable: bool)
      ensures Valid() && ledger == [] && events == [] && this.reliable == reliable
    {
      ledger, events, this.reliable := [], [], reliable;
    }

    /** Between two statements a merge may drop dominated rows. */
    method Merge(ghost sha: Body, ghost at: int)
      requires Valid()
      modifies this
      ensures Valid() && CompletedBodies(ledger) == CompletedBodies(old(ledger))
      ensures Holds(old(ledger), sha, at) ==> Holds(ledger, sha, at)
      ensures NoRow(old(ledger), sha.batch.id) ==> NoRow(ledger, sha.batch.id)
      ensures AllStored(old(events), sha.batch) ==> AllStored(events, sha.batch)
      ensures BodiesStay(old(ledger), ledger)
    {
      BodiesStaySame(ledger, events);
      hide AllStored, HasOwner, LedgerOk, CompletedBodies;
      var i: nat, j: nat := *, *;
      if Dominated(ledger, i, j) {
        LedgerMergeKeeps(ledger, events, i, j, sha, at);
        WithoutKeeps(ledger, i);
        ledger := Without(ledger, i);
      }
      i, j := *, *;
      if Dominated(events, i, j) {
        WithoutKeeps(events, i);
        forall batch | AllStored(events, batch)
          ensures AllStored(Without(events, i), batch)
        {
          EventMergeKeeps(ledger, events, i, j, batch);
        }
        events := Without(events, i);
      }
    }

    method InsertLedger(sha: Body, at: int, status: Status) returns (outcome: P.Outcome)
      requires Valid() && NamesOnly(ledger, sha.batch.id, sha)
      modifies `ledger
      ensures ledger == P.Stored(old(ledger), LedgerRowFor(sha, status, at), outcome)
      ensures BodiesStay(old(ledger), ledger)
      ensures reliable ==> outcome == P.Acked
    {
      hide AllStored, HasOwner, LedgerOk, BodiesStay, NamesOnly;
      outcome := D.AnyOutcome(reliable);
      RowKeepsBodies(ledger, LedgerRowFor(sha, status, at), outcome);
      if outcome != P.Unapplied {
        ledger := ledger + [LedgerRowFor(sha, status, at)];
      }
    }

    method InsertEvents(sha: Body, at: int) returns (outcome: P.Outcome)
      requires Valid() && Holds(ledger, sha, at)
      modifies `events
      ensures Valid()
      ensures outcome == P.Acked ==> AllStored(events, sha.batch)
      ensures forall e | e in events :: e in old(events) || IsRowOf(e, sha.batch, at)
      ensures reliable ==> outcome == P.Acked
    {
      var prepared: seq<EventRow> := [];
      for i := 0 to |sha.batch.records|
        invariant prepared == EventRows(sha.batch, at)[..i]
      {
        prepared := prepared + [EventRowFor(sha.batch, sha.batch.records[i], at)];
      }
      hide AllStored, HasOwner, LedgerOk, Consistent, Holds;
      var stored;
      stored, outcome := D.Send(prepared, reliable);
      SendingKeeps(ledger, events, sha, at, stored);
      RowsAreOf(sha.batch, at);
      events := events + stored;
    }

    /** Stores a batch whole and once, whatever fails on the way and however often it is sent. */
    method InsertFundraising(sha: Body) returns (result: Result)
      requires Valid() && ValidDonations(sha.batch)
      modifies this
      ensures Valid()
      ensures result.Inserted? ==> sha !in CompletedBodies(old(ledger)) && CompletedBodies(ledger) == CompletedBodies(old(ledger)) + {sha}
      ensures result.ErrStatement? ==> CompletedBodies(ledger) in {CompletedBodies(old(ledger)), CompletedBodies(old(ledger)) + {sha}}
      ensures BodiesStay(old(ledger), ledger) && CompletedBodies(old(ledger)) <= CompletedBodies(ledger)
      ensures result.Replay? || result.ErrConflict? ==> CompletedBodies(ledger) == CompletedBodies(old(ledger))
      ensures result.Replay? ==> sha in CompletedBodies(ledger)
      ensures result.Inserted? || result.Replay? ==> result.count == |sha.batch.records| && AllStored(events, sha.batch)
      ensures result.ErrConflict? ==> exists l :: l in ledger && l.key == sha.batch.id && l.data.sha != sha
      ensures forall d | d in CompletedBodies(old(ledger)) && d.batch.id == sha.batch.id ::
                result.ErrStatement? || (if d == sha then result.Replay? else result.ErrConflict?)
      ensures !result.ErrInvalidStatus?
      ensures reliable ==> !result.ErrStatement?
    {
      BodiesStaySame(ledger, events);
      hide AllStored, HasOwner, LedgerOk, CompletedBodies, Holds, BodiesStay;
      result := ErrStatement;
      var ok := D.Reaches(reliable);
      if !ok {
        return;
      }
      var found := D.SelectFinal(ledger, sha.batch.id);
      FoundIsFinal(ledger, events, sha, found);
      if found.Some? {
        if found.value.data.sha != sha {
          return ErrConflict;
        }
        if found.value.data.status == Completed {
          return Replay(|sha.batch.records|);
        }
        if found.value.data.status != Reserved {
          return ErrInvalidStatus;
        }
      }
      result := WriteBatch(sha, if found.Some? then Some(found.value.version) else None);
    }

    method WriteBatch(sha: Body, reserved: Option<int>) returns (result: Result)
      requires Valid() && ValidDonations(sha.batch)
      requires if reserved.Some? then Holds(ledger, sha, reserved.value) else NoRow(ledger, sha.batch.id)
      modifies this
      ensures Valid() && result in {Inserted(|sha.batch.records|), ErrStatement}
      ensures result.Inserted? ==> sha !in CompletedBodies(old(ledger)) && CompletedBodies(ledger) == CompletedBodies(old(ledger)) + {sha}
      ensures result.Inserted? ==> AllStored(events, sha.batch)
      ensures result.ErrStatement? ==> CompletedBodies(ledger) in {CompletedBodies(old(ledger)), CompletedBodies(old(ledger)) + {sha}}
      ensures BodiesStay(old(ledger), ledger) && CompletedBodies(old(ledger)) <= CompletedBodies(ledger)
      ensures reliable ==> !result.ErrStatement?
    {
      hide AllStored, HasOwner, LedgerOk, CompletedBodies, Holds, Consistent, NoRow, ValidDonations, BodiesStay, NamesOnly;
      result := ErrStatement;
      ghost var ledger0 := ledger;
      BodiesStaySame(ledger, events);
      var ingestedAt;
      if reserved.Some? {
        ingestedAt := reserved.value;
      } else {
        ingestedAt := D.Now();
        Merge(sha, ingestedAt);
        ghost var ledger1 := ledger;
        ReservationKeeps(ledger, events, sha, ingestedAt);
        NoneIsNamed(ledger, sha);
        var outcome := InsertLedger(sha, ingestedAt, Reserved);
        BodiesStayOn(ledger0, ledger1, ledger);
        if outcome != P.Acked {
          return;
        }
      }
      ghost var ledger1 := ledger;
      Merge(sha, ingestedAt);
      BodiesStayOn(ledger0, ledger1, ledger);
      var outcome := InsertEvents(sha, ingestedAt);
      if outcome != P.Acked {
        return;
      }
      ledger1 := ledger;
      Merge(sha, ingestedAt);
      BodiesStayOn(ledger0, ledger1, ledger);
      ledger1 := ledger;
      HeldIsNamed(ledger, sha, ingestedAt);
      var completedAt := D.Now();
      if completedAt <= ingestedAt {
        completedAt := ingestedAt + 1;
      }
      CompletionKeeps(ledger, events, sha, ingestedAt, completedAt);
      outcome := InsertLedger(sha, completedAt, Completed);
      BodiesStayOn(ledger0, ledger1, ledger);
      if outcome == P.Acked {
        result := Inserted(|sha.batch.records|);
      }
    }
  }

  /** What the FINAL read of the ledger tells. */
  lemma FoundIsFinal(ledger: seq<LedgerRow>, events: seq<EventRow>, sha: Body, found: Option<LedgerRow>)
    requires Consistent(ledger, events) && FinalRead(ledger, sha.batch.id, found)
    ensures found.Some? ==> found.value in ledger && found.value.key == sha.batch.id && found.value.data.status != Other
    ensures found.None? ==> NoRow(ledger, sha.batch.id)
    ensures found.Some? && found.value.data.status == Reserved && found.value.data.sha == sha ==> Holds(ledger, sha, found.value.version)
    ensures found.Some? && found.value.data.status == Completed ==>
              found.value.data.sha in CompletedBodies(ledger) && AllStored(events, found.value.data.sha.batch)
    ensures forall d | d in CompletedBodies(ledger) && d.batch.id == sha.batch.id ::
              found.Some? && found.value.data.sha == d && found.value.data.status == Completed
  {
    hide HasOwner, AllStored;
    forall l | l in ledger && l.key == sha.batch.id
      ensures found.Some? && SameBatch(l, found.value) && SameBatch(found.value, l) && RowOk(l)
    {
    }
  }

  lemma NoneIsNamed(ledger: seq<LedgerRow>, sha: Body)
    requires NoRow(ledger, sha.batch.id)
    ensures NamesOnly(ledger, sha.batch.id, sha)
  {
  }

  lemma HeldIsNamed(ledger: seq<LedgerRow>, sha: Body, at: int)
    requires Holds(ledger, sha, at)
    ensures NamesOnly(ledger, sha.batch.id, sha)
  {
  }

  // ---------- A batch that broke off ----------

  /**
   From the empty store, a batch is reserved, its events are stored, and the
   connection breaks.  The daily view counts the events, though no batch is completed.
   */
  lemma UnfinishedIsCounted(sha: Body, at: int, g: Group)
    requires ValidDonations(sha.batch)
    ensures var ledger, events := [LedgerRowFor(sha, Reserved, at)], EventRows(sha.batch, at);
            && Consistent(ledger, events) && CompletedBodies(ledger) == {}
            && CompletedFigures(ledger, g) == Figures(0, 0, 0, 0, 0)
            && ((exists event :: event in sha.batch.records && IsPayment(g, ShownOf(sha.batch, event))) ==>
                  DailyFigures(events, g).payments > 0 && DailyFigures(events, g).gross > 0)
  {
    var ledger, events := [LedgerRowFor(sha, Reserved, at)], EventRows(sha.batch, at);
    ReservationKeeps([], [], sha, at);
    assert [] + ledger == ledger && [] + events == events;
    SendingKeeps(ledger, [], sha, at, events);
    assert AllStored(events, sha.batch);
    assert CompletedBodies([]) == {};
    hide Consistent, ValidDonations, CompletedBodies;
    DailyViewExactly(ledger, events, g);
    if event :| event in sha.batch.records && IsPayment(g, ShownOf(sha.batch, event)) {
      assert IsStored(events, sha.batch, event);
      StoredIsShown(ledger, events, sha.batch, event);
      assert !IsCompleted(ledger, sha.batch.id);
    }
  }

  /** FINAL shows an event of a reserved batch as it was stored. */
  lemma StoredIsShown(ledger: seq<LedgerRow>, events: seq<EventRow>, batch: Donations, event: Event)
    requires Consistent(ledger, events) && IsStored(events, batch, event)
    ensures ShownOf(batch, event) in FinalEvents(events)
  {
    var e :| e in events && e.key == EventKey(batch.id, event.id) && e.data == event.details;
    var n := NewestExists(events, e);
    SameKeySameDetails(ledger, e, n);
    assert Shown(n.key, n.data) in FinalEvents(events);
  }
}
