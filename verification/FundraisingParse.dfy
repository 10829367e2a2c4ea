/**
 The fundraising contract's parser: what an accepted event may say about money,
 and the loop over the records of a batch.
 */
module FundraisingParse {
  import opened Tables
  import opened Amounts
  import opened Patterns
  import F = Fundraising

  /** An event as the JSON decoder hands it over; absent members are empty or none, and a campaign that is none may be absent or null. */
  datatype RawEvent = RawEvent(
    eventId: string, occurredAt: string, kind: string, amount: Option<string>, currency: string, frequency: string,
    source: string, campaign: Option<string>, campaignIsPresent: bool, failure: Option<string>)

  datatype RawBatch = RawBatch(schemaVersion: int, id: string, sentAt: string, records: seq<RawEvent>)

  /** UUID and timestamp validity, decided elsewhere. */
  datatype Checks = Checks(isUuid: string -> bool, parseTimestamp: string -> Option<int>)

  function KindOf(kind: string): Option<F.Kind>
  {
    match kind
    case "payment_created" => Some(F.PaymentCreated)
    case "payment_succeeded" => Some(F.PaymentSucceeded)
    case "payment_cancelled" => Some(F.PaymentCancelled)
    case "refund_recorded" => Some(F.RefundRecorded)
    case "recurring_activated" => Some(F.RecurringActivated)
    case "recurring_charge_succeeded" => Some(F.RecurringChargeSucceeded)
    case "recurring_charge_failed" => Some(F.RecurringChargeFailed)
    case "subscription_cancelled" => Some(F.SubscriptionCancelled)
    case _ => None
  }

  const FREQUENCIES := {"one_time", "monthly"}
  const SOURCES := {"direct", "organic", "utm", "qr", "unknown"}
  const FAILURE_CODES := {"declined", "insufficient_funds", "expired", "temporary_unavailable", "processing_error", "unknown"}
  const MONEY_KINDS := {"payment_created", "payment_succeeded", "payment_cancelled", "refund_recorded",
                        "recurring_charge_succeeded", "recurring_charge_failed"}

  const DAY := 86_400_000
  const FIVE_MINUTES := 300_000

  /** The kinds of events that carry money, by their names in the contract. */
  ghost predicate IsMoneyKind(kind: string)
  {
    kind in {"payment_created", "payment_succeeded", "payment_cancelled", "refund_recorded", "recurring_charge_succeeded",
             "recurring_charge_failed"}
  }

  /** What an accepted event says. */
  ghost predicate IsValid(e: RawEvent, sentAt: int, checks: Checks)
  {
    && checks.isUuid(e.eventId)
    // from thirty days before the batch was sent to five minutes after
    && (var at := checks.parseTimestamp(e.occurredAt);
        at.Some? && sentAt - 2_592_000_000 <= at.value <= sentAt + 300_000)
    && (IsMoneyKind(e.kind) || e.kind in {"recurring_activated", "subscription_cancelled"})
    && e.frequency in {"one_time", "monthly"} && e.source in {"direct", "organic", "utm", "qr", "unknown"}
    && (e.campaign.Some? ==> IsSafeName(e.campaign.value, "-_"))
    // money and roubles come together, with money kinds and with no others
    && (IsMoneyKind(e.kind) <==> e.amount.Some?)
    && (IsMoneyKind(e.kind) <==> e.currency == "RUB") && (!IsMoneyKind(e.kind) ==> e.currency == "")
    && (e.amount.Some? ==> IsAmount(e.amount.value))
    // a failure code comes with a failed charge and with nothing else
    && (e.kind == "recurring_charge_failed" <==> e.failure.Some?)
    && (e.failure.Some? ==>
          e.failure.value in {"declined", "insufficient_funds", "expired", "temporary_unavailable", "processing_error", "unknown"})
  }

  ghost function Parsed(e: RawEvent, checks: Checks): F.Event
    requires checks.parseTimestamp(e.occurredAt).Some? && KindOf(e.kind).Some?
    requires e.amount.Some? ==> IsAmount(e.amount.value)
  {
    F.Event(e.eventId,
            F.Details(checks.parseTimestamp(e.occurredAt).value, KindOf(e.kind).value,
                      if e.amount.Some? then Some(Kopecks(e.amount.value)) else None,
                      e.frequency, e.source, e.campaign, e.failure))
  }

  method ValidateEvent(e: RawEvent, sentAt: int, checks: Checks) returns (parsed: Option<F.Event>)
    ensures parsed.Some? <==> IsValid(e, sentAt, checks)
    ensures parsed.Some? ==> parsed.value == Parsed(e, checks)
  {
    if !checks.isUuid(e.eventId) {
      return None;
    }
    var occurredAt := checks.parseTimestamp(e.occurredAt);
    if occurredAt.None? {
      return None;
    }
    if occurredAt.value < sentAt - 30 * DAY || occurredAt.value > sentAt + FIVE_MINUTES {
      return None;
    }
    var kind := KindOf(e.kind);
    if kind.None? || e.frequency !in FREQUENCIES || e.source !in SOURCES {
      return None;
    }
    if e.campaign.Some? {
      NamesAreSafe(e.campaign.value);
      if !IsName(e.campaign.value, true) {
        return None;
      }
    }
    var moneyEvent := e.kind in MONEY_KINDS;
    if moneyEvent {
      if e.amount.None? || !MatchesPattern(e.amount.value) || e.amount.value == "0.00" || e.currency != "RUB" {
        return None;
      }
    } else if e.amount.Some? || e.currency != "" {
      return None;
    }
    if e.kind == "recurring_charge_failed" {
      if e.failure.None? || e.failure.value !in FAILURE_CODES {
        return None;
      }
    } else if e.failure.Some? {
      return None;
    }
    var amount := if e.amount.Some? then Some(Kopecks(e.amount.value)) else None;
    parsed := Some(F.Event(e.eventId, F.Details(occurredAt.value, kind.value, amount, e.frequency, e.source, e.campaign, e.failure)));
  }

  /** The records of a batch, 1 to 500 of them, each valid and with an event ID of its own. */
  method ParseRecords(batchId: string, records: seq<RawEvent>, sentAt: int, checks: Checks) returns (parsed: Option<F.Donations>)
    ensures parsed.Some? <==>
              && 1 <= |records| <= 500
              && (forall i | 0 <= i < |records| :: IsValid(records[i], sentAt, checks))
              && (forall i, j | 0 <= i < j < |records| :: records[i].eventId != records[j].eventId)
    ensures parsed.Some? ==>
              && parsed.value.id == batchId && F.ValidDonations(parsed.value) && |parsed.value.records| == |records|
              && forall i | 0 <= i < |records| :: IsParsed(records[i], checks, parsed.value.records[i])
  {
    hide IsValid, Parsed, F.MoneyOk;
    if |records| < 1 || |records| > F.MAX_RECORDS {
      return None;
    }
    var events: seq<F.Event> := [];
    var seen: set<string> := {};
    for i := 0 to |records|
      invariant |events| == i && forall event | event in events :: F.MoneyOk(event.details)
      invariant forall j | 0 <= j < i :: IsValid(records[j], sentAt, checks) && IsParsed(records[j], checks, events[j])
      invariant forall j | 0 <= j < i :: records[j].eventId in seen
      invariant forall id | id in seen :: exists j :: 0 <= j < i && records[j].eventId == id
      invariant forall j, k | 0 <= j < k < i :: records[j].eventId != records[k].eventId
    {
      if records[i].eventId in seen {
        return None;
      }
      seen := seen + {records[i].eventId};
      var event := ValidateEvent(records[i], sentAt, checks);
      if event.None? {
        return None;
      }
      assert IsParsed(records[i], checks, event.value) && F.MoneyOk(event.value.details) by {
        ValidIsParsable(records[i], sentAt, checks);
      }
      events := events + [event.value];
    }
    parsed := Some(F.Donations(batchId, events));
  }

  /** What an accepted batch says about itself. */
  ghost predicate HeaderOk(batch: RawBatch, now: int, checks: Checks)
  {
    && batch.schemaVersion == 1 && checks.isUuid(batch.id)
    && (var at := checks.parseTimestamp(batch.sentAt); at.Some? && now - 604_800_000 <= at.value <= now + 300_000)
  }

  const SCHEMA_VERSION := 1

  /** Accepts a batch just when every campaign is there, the header is valid, and so are the records. */
  method ParseBatch(batch: RawBatch, now: int, checks: Checks) returns (parsed: Option<F.Donations>)
    ensures parsed.Some? <==>
              && (forall i | 0 <= i < |batch.records| :: batch.records[i].campaignIsPresent)
              && HeaderOk(batch, now, checks)
              && 1 <= |batch.records| <= 500
              && (forall i | 0 <= i < |batch.records| :: IsValid(batch.records[i], checks.parseTimestamp(batch.sentAt).value, checks))
              && (forall i, j | 0 <= i < j < |batch.records| :: batch.records[i].eventId != batch.records[j].eventId)
    ensures parsed.Some? ==>
              && parsed.value.id == batch.id && F.ValidDonations(parsed.value) && |parsed.value.records| == |batch.records|
              && forall i | 0 <= i < |batch.records| :: IsParsed(batch.records[i], checks, parsed.value.records[i])
  {
    hide IsValid, Parsed, F.ValidDonations;
    for i := 0 to |batch.records|
      invariant forall j | 0 <= j < i :: batch.records[j].campaignIsPresent
    {
      if !batch.records[i].campaignIsPresent {
        return None;
      }
    }
    if batch.schemaVersion != SCHEMA_VERSION || !checks.isUuid(batch.id) {
      return None;
    }
    var sentAt := checks.parseTimestamp(batch.sentAt);
    if sentAt.None? || sentAt.value < now - 7 * DAY || sentAt.value > now + FIVE_MINUTES {
      return None;
    }
    parsed := ParseRecords(batch.id, batch.records, sentAt.value, checks);
  }

  ghost predicate IsParsed(e: RawEvent, checks: Checks, event: F.Event)
  {
    && checks.parseTimestamp(e.occurredAt).Some? && KindOf(e.kind).Some? && (e.amount.Some? ==> IsAmount(e.amount.value))
    && event == Parsed(e, checks) && event.id == e.eventId
  }

  lemma ValidIsParsable(e: RawEvent, sentAt: int, checks: Checks)
    requires IsValid(e, sentAt, checks)
    ensures IsParsed(e, checks, Parsed(e, checks))
    ensures F.MoneyOk(Parsed(e, checks).details)
  {
    AcceptedMoney(e, sentAt, checks);
  }

  /** Money in an accepted event is worth 1 to 10^18 - 1 kopecks and its text can be had back. */
  lemma AcceptedMoney(e: RawEvent, sentAt: int, checks: Checks)
    requires IsValid(e, sentAt, checks)
    ensures var amount := Parsed(e, checks).details.amount;
            && (amount.Some? <==> IsMoneyKind(e.kind))
            && (amount.Some? ==> 1 <= amount.value < 1_000_000_000_000_000_000 && Print(amount.value) == e.amount.value)
  {
    if e.amount.Some? {
      AmountPrintsBack(e.amount.value);
    }
  }

  /** The eight names of the contract, one for each kind. */
  lemma WireNames(kind: string)
    ensures KindOf(kind).Some? <==> IsMoneyKind(kind) || kind in {"recurring_activated", "subscription_cancelled"}
    ensures KindOf(kind) == Some(F.PaymentCreated) <==> kind == "payment_created"
    ensures KindOf(kind) == Some(F.PaymentSucceeded) <==> kind == "payment_succeeded"
    ensures KindOf(kind) == Some(F.PaymentCancelled) <==> kind == "payment_cancelled"
    ensures KindOf(kind) == Some(F.RefundRecorded) <==> kind == "refund_recorded"
    ensures KindOf(kind) == Some(F.RecurringActivated) <==> kind == "recurring_activated"
    ensures KindOf(kind) == Some(F.RecurringChargeSucceeded) <==> kind == "recurring_charge_succeeded"
    ensures KindOf(kind) == Some(F.RecurringChargeFailed) <==> kind == "recurring_charge_failed"
    ensures KindOf(kind) == Some(F.SubscriptionCancelled) <==> kind == "subscription_cancelled"
  {
  }

  /**
   What an accepted event counts as in the daily view, by the words of the event:
   successful payments and charges as payments with their worth, recorded refunds
   as refunds with theirs, and nothing else at all.
   */
  lemma CountedAs(e: RawEvent, sentAt: int, checks: Checks, batch: string, g: F.Group)
    requires IsValid(e, sentAt, checks)
    ensures var x := F.Shown(F.EventKey(batch, e.eventId), Parsed(e, checks).details);
            var mine := F.GroupOf(x) == g;
            && F.PaymentCount(g)(x) == (if mine && e.kind in {"payment_succeeded", "recurring_charge_succeeded"} then 1 else 0)
            && F.RefundCount(g)(x) == (if mine && e.kind == "refund_recorded" then 1 else 0)
            && (F.PaymentCount(g)(x) == 1 ==> e.amount.Some? && F.Gross(g)(x) == Kopecks(e.amount.value) && F.Refunded(g)(x) == 0)
            && (F.RefundCount(g)(x) == 1 ==> e.amount.Some? && F.Refunded(g)(x) == Kopecks(e.amount.value) && F.Gross(g)(x) == 0)
            && (F.PaymentCount(g)(x) == F.RefundCount(g)(x) ==> F.Gross(g)(x) == F.Refunded(g)(x) == 0)
  {
    WireNames(e.kind);
    hide IsAmount, F.GroupOf;
  }

  /** The group of an accepted event has its words; the day is that of its time. */
  lemma GroupSays(e: RawEvent, sentAt: int, checks: Checks, batch: string)
    requires IsValid(e, sentAt, checks)
    ensures var g := F.GroupOf(F.Shown(F.EventKey(batch, e.eventId), Parsed(e, checks).details));
            && g.frequency == e.frequency && g.source == e.source && g.campaign == e.campaign
            && (g.inRoubles <==> e.currency == "RUB")
            && g.date * 86_400_000 <= checks.parseTimestamp(e.occurredAt).value < (g.date + 1) * 86_400_000
  {
  }

  /** Accepted events fall into one group just when they are of one UTC day, frequency, source, campaign and currency. */
  lemma GroupedBy(e: RawEvent, f: RawEvent, sentAt: int, sentAt': int, checks: Checks, batch: string, batch': string)
    requires IsValid(e, sentAt, checks) && IsValid(f, sentAt', checks)
    ensures F.GroupOf(F.Shown(F.EventKey(batch, e.eventId), Parsed(e, checks).details)) ==
              F.GroupOf(F.Shown(F.EventKey(batch', f.eventId), Parsed(f, checks).details)) <==>
              && (exists day: int :: day * 86_400_000 <= checks.parseTimestamp(e.occurredAt).value < (day + 1) * 86_400_000
                                     && day * 86_400_000 <= checks.parseTimestamp(f.occurredAt).value < (day + 1) * 86_400_000)
              && e.frequency == f.frequency && e.source == f.source && e.campaign == f.campaign && e.currency == f.currency
  {
    var a, b := checks.parseTimestamp(e.occurredAt).value, checks.parseTimestamp(f.occurredAt).value;
    SameDay(a, b);
    hide IsAmount, Kopecks;
  }

  lemma SameDay(a: int, b: int)
    ensures a / F.DAY == b / F.DAY <==>
              exists day: int :: day * 86_400_000 <= a < (day + 1) * 86_400_000 && day * 86_400_000 <= b < (day + 1) * 86_400_000
  {
    if a / F.DAY == b / F.DAY {
      var day := a / F.DAY;
      assert day * 86_400_000 <= a < (day + 1) * 86_400_000 && day * 86_400_000 <= b < (day + 1) * 86_400_000;
    }
  }
}
