/**
 The fundraising ledger: the reservation scheme of the telemetry store without
 registry and suppression, and the money totals computed over its rows.
 */
module Fundraising {
  import opened Tables
  import D = Database
  import P = Protocol
  import opened SetSums

  // ---------- Batches and rows ----------

  datatype Kind =
    | PaymentCreated | PaymentSucceeded | PaymentCancelled | RefundRecorded
    | RecurringActivated | RecurringChargeSucceeded | RecurringChargeFailed | SubscriptionCancelled

  /** The closed dimensions of an event; amounts in kopecks. */
  datatype Details = Details(
    occurredAt: int, kind: Kind, amount: Option<nat>, frequency: string, source: string, campaign: Option<string>,
    failure: Option<string>)

  datatype Event = Event(id: string, details: Details)
  datatype Donations = Donations(id: string, records: seq<Event>)

  const MAX_RECORDS := 500

  predicate IsMonetary(kind: Kind)
  {
    kind !in {RecurringActivated, SubscriptionCancelled}
  }

  /** Monetary kinds carry a positive amount, the others carry none. */
  predicate MoneyOk(details: Details)
  {
    && (IsMonetary(details.kind) <==> details.amount.Some?)
    && (details.amount.Some? ==> details.amount.value >= 1)
  }

  ghost predicate ValidDonations(batch: Donations)
  {
    && 1 <= |batch.records| <= MAX_RECORDS
    && (forall i, j | 0 <= i < j < |batch.records| :: batch.records[i].id != batch.records[j].id)
    && (forall event | event in batch.records :: MoneyOk(event.details))
  }

  /** The SHA-256 of a body, taken to determine the batch it parses to. */
  datatype Body = Body(batch: Donations, spelling: nat)

  datatype Status = Reserved | Completed | Other

  datatype LedgerData = LedgerData(sha: Body, count: nat, status: Status)
  datatype EventKey = EventKey(batch: string, event: string)

  type LedgerRow = Row<string, LedgerData>
  type EventRow = Row<EventKey, Details>

  function LedgerRowFor(sha: Body, status: Status, at: int): LedgerRow
  {
    Row(sha.batch.id, at, LedgerData(sha, |sha.batch.records|, status))
  }

  function EventRowFor(batch: Donations, event: Event, at: int): EventRow
  {
    Row(EventKey(batch.id, event.id), at, event.details)
  }

  function EventRows(batch: Donations, at: int): (rows: seq<EventRow>)
    ensures |rows| == |batch.records|
  {
    seq(|batch.records|, i requires 0 <= i < |batch.records| => EventRowFor(batch, batch.records[i], at))
  }

  // ---------- The invariant ----------

  ghost predicate RowOk(r: LedgerRow)
  {
    r == LedgerRowFor(r.data.sha, r.data.status, r.version) && r.data.status != Other && ValidDonations(r.data.sha.batch)
  }

  /** Rows of one batch: one body, one reservation, one later completion. */
  predicate SameBatch(r: LedgerRow, q: LedgerRow)
  {
    && r.data.sha == q.data.sha
    && (r.data.status == q.data.status ==> r == q)
    && (r.data.status == Reserved && q.data.status == Completed ==> r.version < q.version)
  }

  ghost predicate LedgerOk(ledger: seq<LedgerRow>)
  {
    && (forall r | r in ledger :: RowOk(r))
    && (forall r, q | r in ledger && q in ledger && r.key == q.key :: SameBatch(r, q))
  }

  /** An event row repeats an event of a batch in the ledger. */
  ghost predicate HasOwner(ledger: seq<LedgerRow>, e: EventRow)
  {
    exists l :: l in ledger && l.key == e.key.batch && Event(e.key.event, e.data) in l.data.sha.batch.records
  }

  ghost predicate IsStored(events: seq<EventRow>, batch: Donations, event: Event)
  {
    exists e :: e in events && e.key == EventKey(batch.id, event.id) && e.data == event.details
  }

  ghost predicate AllStored(events: seq<EventRow>, batch: Donations)
  {
    forall event | event in batch.records :: IsStored(events, batch, event)
  }

  ghost predicate Consistent(ledger: seq<LedgerRow>, events: seq<EventRow>)
  {
    && LedgerOk(ledger)
    && (forall e | e in events :: HasOwner(ledger, e))
    && (forall l | l in ledger && l.data.status == Completed :: AllStored(events, l.data.sha.batch))
  }

  ghost function CompletedBodies(ledger: seq<LedgerRow>): set<Body>
  {
    set l | l in ledger && l.data.status == Completed :: l.data.sha
  }

  ghost predicate Holds(ledger: seq<LedgerRow>, sha: Body, at: int)
  {
    && LedgerRowFor(sha, Reserved, at) in ledger
    && forall l | l in ledger && l.key == sha.batch.id :: l == LedgerRowFor(sha, Reserved, at)
  }

  /** The columns of a ledger row are those of the body it names. */
  lemma LedgerRepeatsBodies(ledger: seq<LedgerRow>)
    requires LedgerOk(ledger)
    ensures forall l | l in ledger :: l.key == l.data.sha.batch.id && l.data.count == |l.data.sha.batch.records|
  {
    forall l | l in ledger
      ensures l.key == l.data.sha.batch.id && l.data.count == |l.data.sha.batch.records|
    {
      assert RowOk(l);
    }
  }

  /** Under any clock: the body of a batch ID is fixed, and a completion is what FINAL answers from then on. */
  lemma CompletionWins(ledger: seq<LedgerRow>, events: seq<EventRow>, l: LedgerRow, found: Option<LedgerRow>)
    requires Consistent(ledger, events) && l in ledger && FinalRead(ledger, l.key, found)
    ensures found.Some? && found.value.data.sha == l.data.sha
    ensures l.data.status == Completed ==> found.value == l
    ensures found.value.data.status == Reserved ==> l == found.value
  {
    hide AllStored, HasOwner;
    assert found.Some?;
    assert SameBatch(l, found.value) && SameBatch(found.value, l) && RowOk(l) && RowOk(found.value);
  }

  // ---------- What FINAL shows ----------

  datatype Shown = Shown(key: EventKey, details: Details)

  /** The answer of `SELECT ... FINAL`: per key the details of a newest row. */
  ghost function FinalEvents(events: seq<EventRow>): set<Shown>
  {
    set e | e in events && IsNewest(events, e) :: Shown(e.key, e.data)
  }

  ghost function EventsOf(batch: Donations): set<Shown>
  {
    set event | event in batch.records :: Shown(EventKey(batch.id, event.id), event.details)
  }

  ghost function EventsOfAll(bodies: set<Body>): set<Shown>
  {
    set d, event | d in bodies && event in d.batch.records :: Shown(EventKey(d.batch.id, event.id), event.details)
  }

  /** Rows of batches that are reserved and not completed. */
  ghost function Unfinished(ledger: seq<LedgerRow>, events: seq<EventRow>): set<Shown>
  {
    set x | x in FinalEvents(events) && forall d | d in CompletedBodies(ledger) :: d.batch.id != x.key.batch
  }

  lemma OwnerIsUnique(ledger: seq<LedgerRow>, l: LedgerRow, q: LedgerRow, e: Event, f: Event)
    requires LedgerOk(ledger) && l in ledger && q in ledger && l.key == q.key
    requires e in l.data.sha.batch.records && f in q.data.sha.batch.records && e.id == f.id
    ensures e == f
  {
    assert SameBatch(l, q) && RowOk(l);
  }

  /** Under FINAL, every event of every completed batch is there once, and else only rows of unfinished batches. */
  lemma FinalIsCompletedAndUnfinished(ledger: seq<LedgerRow>, events: seq<EventRow>)
    requires Consistent(ledger, events)
    ensures FinalEvents(events) == EventsOfAll(CompletedBodies(ledger)) + Unfinished(ledger, events)
    ensures EventsOfAll(CompletedBodies(ledger)) !! Unfinished(ledger, events)
    ensures forall x, y | x in FinalEvents(events) && y in FinalEvents(events) && x.key == y.key :: x == y
  {
    hide LedgerOk;
    forall x | x in FinalEvents(events)
      ensures x in EventsOfAll(CompletedBodies(ledger)) + Unfinished(ledger, events)
    {
      FinalHasOwner(ledger, events, x);
    }
    forall x | x in EventsOfAll(CompletedBodies(ledger))
      ensures x in FinalEvents(events) && x !in Unfinished(ledger, events)
    {
      CompletedIsShown(ledger, events, x);
    }
    forall x, y | x in FinalEvents(events) && y in FinalEvents(events) && x.key == y.key
      ensures x == y
    {
      DetailsAreFixed(ledger, events, x, y);
    }
  }

  lemma FinalHasOwner(ledger: seq<LedgerRow>, events: seq<EventRow>, x: Shown)
    requires Consistent(ledger, events) && x in FinalEvents(events)
    ensures x in EventsOfAll(CompletedBodies(ledger)) || x in Unfinished(ledger, events)
  {
    var e :| e in events && Shown(e.key, e.data) == x;
    var l :| l in ledger && l.key == e.key.batch && Event(e.key.event, e.data) in l.data.sha.batch.records;
    if x !in Unfinished(ledger, events) {
      var d :| d in CompletedBodies(ledger) && d.batch.id == x.key.batch;
      var c :| c in ledger && c.data.status == Completed && c.data.sha == d;
      assert RowOk(c) && RowOk(l) && SameBatch(l, c);
      assert Event(x.key.event, x.details) in d.batch.records;
    }
  }

  lemma DetailsAreFixed(ledger: seq<LedgerRow>, events: seq<EventRow>, x: Shown, y: Shown)
    requires Consistent(ledger, events) && x in FinalEvents(events) && y in FinalEvents(events) && x.key == y.key
    ensures x == y
  {
    var e :| e in events && Shown(e.key, e.data) == x;
    var f :| f in events && Shown(f.key, f.data) == y;
    var l :| l in ledger && l.key == e.key.batch && Event(e.key.event, e.data) in l.data.sha.batch.records;
    var q :| q in ledger && q.key == f.key.batch && Event(f.key.event, f.data) in q.data.sha.batch.records;
    OwnerIsUnique(ledger, l, q, Event(e.key.event, e.data), Event(f.key.event, f.data));
  }

  lemma CompletedIsShown(ledger: seq<LedgerRow>, events: seq<EventRow>, x: Shown)
    requires Consistent(ledger, events) && x in EventsOfAll(CompletedBodies(ledger))
    ensures x in FinalEvents(events) && x !in Unfinished(ledger, events)
  {
    var d, event :| d in CompletedBodies(ledger) && event in d.batch.records && x == Shown(EventKey(d.batch.id, event.id), event.details);
    var c :| c in ledger && c.data.status == Completed && c.data.sha == d;
    assert AllStored(events, d.batch) && IsStored(events, d.batch, event);
    var e :| e in events && e.key == x.key && e.data == x.details;
    var n := NewestExists(events, e);
    assert Shown(n.key, n.data) in FinalEvents(events);
    var q :| q in ledger && q.key == n.key.batch && Event(n.key.event, n.data) in q.data.sha.batch.records;
    assert RowOk(c);
    OwnerIsUnique(ledger, c, q, event, Event(n.key.event, n.data));
  }

  // ---------- Totals ----------

  function RecordsSum(batch: Donations, n: nat, f: Shown -> int): int
    requires n <= |batch.records|
  {
    if n == 0 then 0
    else RecordsSum(batch, n - 1, f) + f(ShownOf(batch, batch.records[n - 1]))
  }

  /** One event after another, each once. */
  function BatchSum(batch: Donations, f: Shown -> int): int
  {
    RecordsSum(batch, |batch.records|, f)
  }

  function ShownOf(batch: Donations, event: Event): Shown
  {
    Shown(EventKey(batch.id, event.id), event.details)
  }

  ghost function FirstEvents(batch: Donations, n: nat): set<Shown>
    requires n <= |batch.records|
  {
    set i | 0 <= i < n :: ShownOf(batch, batch.records[i])
  }

  lemma {:induction false} SumOfFirst(batch: Donations, n: nat, f: Shown -> int)
    requires n <= |batch.records| && ValidDonations(batch)
    ensures Sum(FirstEvents(batch, n), f) == RecordsSum(batch, n, f)
  {
    if n > 0 {
      SumOfFirst(batch, n - 1, f);
      var x := ShownOf(batch, batch.records[n - 1]);
      assert x !in FirstEvents(batch, n - 1);
      assert FirstEvents(batch, n) - {x} == FirstEvents(batch, n - 1);
      SumTakes(FirstEvents(batch, n), f, x);
    }
  }

  lemma SumOfBatch(batch: Donations, f: Shown -> int)
    requires ValidDonations(batch)
    ensures Sum(EventsOf(batch), f) == BatchSum(batch, f)
  {
    SumOfFirst(batch, |batch.records|, f);
    assert EventsOf(batch) == FirstEvents(batch, |batch.records|);
  }

  lemma OneBodyMore(bodies: set<Body>, d: Body)
    requires d in bodies
    requires forall e | e in bodies && e.batch.id == d.batch.id :: e == d
    ensures EventsOfAll(bodies) == EventsOf(d.batch) + EventsOfAll(bodies - {d})
    ensures EventsOf(d.batch) !! EventsOfAll(bodies - {d})
  {
  }

  lemma {:induction false} SumOfBodies(bodies: set<Body>, f: Shown -> int)
    requires forall d | d in bodies :: ValidDonations(d.batch)
    requires forall d, e | d in bodies && e in bodies && d.batch.id == e.batch.id :: d == e
    ensures Sum(EventsOfAll(bodies), f) == Sum(bodies, (d: Body) => BatchSum(d.batch, f))
    decreases |bodies|
  {
    hide ValidDonations;
    if bodies != {} {
      var d :| d in bodies;
      var others := bodies - {d};
      SumOfBodies(others, f);
      SumTakes(bodies, (d: Body) => BatchSum(d.batch, f), d);
      SumOfBatch(d.batch, f);
      OneBodyMore(bodies, d);
      hide EventsOfAll, EventsOf, BatchSum;
      SumOfUnion(EventsOf(d.batch), EventsOfAll(others), f);
    } else {
      assert EventsOfAll(bodies) == {};
    }
  }

  lemma CompletedAreApart(ledger: seq<LedgerRow>, d: Body, e: Body)
    requires LedgerOk(ledger) && d in CompletedBodies(ledger) && e in CompletedBodies(ledger)
    ensures ValidDonations(d.batch) && (d.batch.id == e.batch.id ==> d == e)
  {
    var l :| l in ledger && l.data.status == Completed && l.data.sha == d;
    var q :| q in ledger && q.data.status == Completed && q.data.sha == e;
    assert RowOk(l) && RowOk(q);
    if d.batch.id == e.batch.id {
      assert SameBatch(l, q);
    }
  }

  /**
   Whatever the retries and partial sends: any sum over the FINAL rows counts
   each event of each completed batch once, and beside that only what is stored
   of unfinished batches.
   */
  lemma TotalsAreConserved(ledger: seq<LedgerRow>, events: seq<EventRow>, f: Shown -> int)
    requires Consistent(ledger, events)
    ensures Sum(FinalEvents(events), f) ==
              Sum(CompletedBodies(ledger), (d: Body) => BatchSum(d.batch, f)) + Sum(Unfinished(ledger, events), f)
  {
    FinalIsCompletedAndUnfinished(ledger, events);
    forall d, e | d in CompletedBodies(ledger) && e in CompletedBodies(ledger)
      ensures ValidDonations(d.batch) && (d.batch.id == e.batch.id ==> d == e)
    {
      CompletedAreApart(ledger, d, e);
    }
    hide CompletedBodies, EventsOfAll, Unfinished, FinalEvents, BatchSum, ValidDonations;
    SumOfBodies(CompletedBodies(ledger), f);
    SumOfUnion(EventsOfAll(CompletedBodies(ledger)), Unfinished(ledger, events), f);
  }

  ghost predicate IsCompleted(ledger: seq<LedgerRow>, id: string)
  {
    exists c :: c in ledger && c.key == id && c.data.status == Completed
  }

  /** A FINAL row is unfinished just when its batch is not completed. */
  lemma UnfinishedExactly(ledger: seq<LedgerRow>, events: seq<EventRow>, x: Shown)
    requires Consistent(ledger, events) && x in FinalEvents(events)
    ensures x in Unfinished(ledger, events) <==> !IsCompleted(ledger, x.key.batch)
  {
    if IsCompleted(ledger, x.key.batch) {
      var c :| c in ledger && c.key == x.key.batch && c.data.status == Completed;
      assert RowOk(c) && c.data.sha in CompletedBodies(ledger);
    }
    forall d | d in CompletedBodies(ledger) && d.batch.id == x.key.batch
      ensures IsCompleted(ledger, x.key.batch)
    {
      var c :| c in ledger && c.data.status == Completed && c.data.sha == d;
      assert RowOk(c);
    }
  }

  lemma NothingUnfinishedExactly(ledger: seq<LedgerRow>, events: seq<EventRow>)
    requires Consistent(ledger, events)
    ensures Unfinished(ledger, events) == {} <==> forall e | e in events :: IsCompleted(ledger, e.key.batch)
  {
    if forall e | e in events :: IsCompleted(ledger, e.key.batch) {
      forall x | x in FinalEvents(events)
        ensures x !in Unfinished(ledger, events)
      {
        UnfinishedExactly(ledger, events, x);
      }
    } else {
      var e :| e in events && !IsCompleted(ledger, e.key.batch);
      var n := NewestExists(events, e);
      var x := Shown(n.key, n.data);
      assert x in FinalEvents(events);
      UnfinishedExactly(ledger, events, x);
    }
  }

  /** FINAL shows the events of the completed batches, and nothing else, exactly when every stored row is of a completed batch. */
  lemma FinalIsCompletedExactly(ledger: seq<LedgerRow>, events: seq<EventRow>)
    requires Consistent(ledger, events)
    ensures FinalEvents(events) == EventsOfAll(CompletedBodies(ledger)) <==> forall e | e in events :: IsCompleted(ledger, e.key.batch)
  {
    hide *;
    FinalIsCompletedAndUnfinished(ledger, events);
    NothingUnfinishedExactly(ledger, events);
  }

  /** What the completed batches add up to. */
  ghost function CompletedSum(ledger: seq<LedgerRow>, f: Shown -> int): int
  {
    Sum(CompletedBodies(ledger), (d: Body) => BatchSum(d.batch, f))
  }

  /**
   A total over FINAL is never short of the completed batches, and is exactly
   theirs when no row that counts towards it is of a batch not completed.
   */
  lemma TotalIsExactly(ledger: seq<LedgerRow>, events: seq<EventRow>, f: Shown -> int)
    requires Consistent(ledger, events) && forall x | x in FinalEvents(events) :: f(x) >= 0
    ensures Sum(FinalEvents(events), f) == CompletedSum(ledger, f) + Sum(Unfinished(ledger, events), f)
    ensures Sum(FinalEvents(events), f) >= CompletedSum(ledger, f)
    ensures Sum(FinalEvents(events), f) == CompletedSum(ledger, f)
       <==> forall x | x in FinalEvents(events) && f(x) > 0 :: IsCompleted(ledger, x.key.batch)
  {
    TotalsAreConserved(ledger, events, f);
    hide Consistent, FinalEvents, CompletedBodies, IsCompleted, BatchSum;
    forall x | x in FinalEvents(events)
      ensures x in Unfinished(ledger, events) <==> !IsCompleted(ledger, x.key.batch)
    {
      UnfinishedExactly(ledger, events, x);
    }
    SumOfNaturals(Unfinished(ledger, events), f);
  }

  // ---------- The daily view ----------

  const DAY := 86_400_000

  datatype Group = Group(date: int, frequency: string, source: string, campaign: Option<string>, inRoubles: bool)

  /** Dates floor, also before the epoch. */
  function GroupOf(x: Shown): Group
  {
    Group(x.details.occurredAt / DAY, x.details.frequency, x.details.source, x.details.campaign, x.details.amount.Some?)
  }

  function AmountOf(x: Shown): nat
  {
    if x.details.amount.Some? then x.details.amount.value else 0
  }

  predicate IsPayment(g: Group, x: Shown)
  {
    GroupOf(x) == g && x.details.kind in {PaymentSucceeded, RecurringChargeSucceeded}
  }

  predicate IsRefund(g: Group, x: Shown)
  {
    GroupOf(x) == g && x.details.kind == RefundRecorded
  }

  function PaymentCount(g: Group): Shown -> int
  {
    x => if IsPayment(g, x) then 1 else 0
  }

  function RefundCount(g: Group): Shown -> int
  {
    x => if IsRefund(g, x) then 1 else 0
  }

  function Gross(g: Group): Shown -> int
  {
    x => if IsPayment(g, x) then AmountOf(x) else 0
  }

  function Refunded(g: Group): Shown -> int
  {
    x => if IsRefund(g, x) then AmountOf(x) else 0
  }

  /** The five figures of one row of the daily view. */
  datatype Figures = Figures(payments: int, refunds: int, gross: int, refunded: int, net: int)

  ghost function DailyFigures(events: seq<EventRow>, g: Group): Figures
  {
    var shown := FinalEvents(events);
    var gross, refunded := Sum(shown, Gross(g)), Sum(shown, Refunded(g));
    Figures(Sum(shown, PaymentCount(g)), Sum(shown, RefundCount(g)), gross, refunded, gross - refunded)
  }

  /** What they should be: each event of each completed batch, once. */
  ghost function CompletedFigures(ledger: seq<LedgerRow>, g: Group): Figures
  {
    var gross, refunded := CompletedSum(ledger, Gross(g)), CompletedSum(ledger, Refunded(g));
    Figures(CompletedSum(ledger, PaymentCount(g)), CompletedSum(ledger, RefundCount(g)), gross, refunded, gross - refunded)
  }

  ghost predicate PaymentsAreCompleted(ledger: seq<LedgerRow>, events: seq<EventRow>, g: Group)
  {
    forall x | x in FinalEvents(events) && IsPayment(g, x) :: IsCompleted(ledger, x.key.batch)
  }

  ghost predicate RefundsAreCompleted(ledger: seq<LedgerRow>, events: seq<EventRow>, g: Group)
  {
    forall x | x in FinalEvents(events) && IsRefund(g, x) :: IsCompleted(ledger, x.key.batch)
  }

  /** Stored payments and refunds carry an amount. */
  lemma ShownMoney(ledger: seq<LedgerRow>, events: seq<EventRow>, x: Shown)
    requires Consistent(ledger, events) && x in FinalEvents(events)
    ensures MoneyOk(x.details)
  {
    var e :| e in events && Shown(e.key, e.data) == x;
    assert HasOwner(ledger, e);
    var l :| l in ledger && l.key == e.key.batch && Event(e.key.event, e.data) in l.data.sha.batch.records;
    assert RowOk(l);
  }

  /**
   When the daily view is right about a group: payments and gross exactly when
   every payment FINAL shows in the group is of a completed batch, refunds
   likewise, and net exactly when what is too much on both sides is the same.
   */
  lemma DailyViewExactly(ledger: seq<LedgerRow>, events: seq<EventRow>, g: Group)
    requires Consistent(ledger, events)
    ensures var daily, right := DailyFigures(events, g), CompletedFigures(ledger, g);
            && (daily.payments == right.payments <==> PaymentsAreCompleted(ledger, events, g))
            && (daily.gross == right.gross <==> PaymentsAreCompleted(ledger, events, g))
            && (daily.refunds == right.refunds <==> RefundsAreCompleted(ledger, events, g))
            && (daily.refunded == right.refunded <==> RefundsAreCompleted(ledger, events, g))
            && (daily.net == right.net <==>
                  Sum(Unfinished(ledger, events), Gross(g)) == Sum(Unfinished(ledger, events), Refunded(g)))
            && daily.payments >= right.payments && daily.gross >= right.gross
            && daily.refunds >= right.refunds && daily.refunded >= right.refunded
  {
    hide Consistent, FinalEvents, CompletedSum, IsCompleted, Unfinished, GroupOf;
    forall x | x in FinalEvents(events)
      ensures (Gross(g)(x) > 0 <==> IsPayment(g, x)) && (Refunded(g)(x) > 0 <==> IsRefund(g, x))
    {
      ShownMoney(ledger, events, x);
    }
    TotalIsExactly(ledger, events, PaymentCount(g));
    TotalIsExactly(ledger, events, RefundCount(g));
    TotalIsExactly(ledger, events, Gross(g));
    TotalIsExactly(ledger, events, Refunded(g));
  }
}
