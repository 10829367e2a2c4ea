/**
 The life of one privacy request and of one table's deletion progress, as the
 sequence of rows stored for it.
 */
module History {
  import opened Tables
  import opened Telemetry
  import opened Protocol

  function Last<T>(rows: seq<T>): T
    requires rows != []
  {
    rows[|rows| - 1]
  }

  // ---------- Status rows of a request ----------

  /** The columns every row of a request repeats. */
  predicate SameRequest(a: SuppressionRow, b: SuppressionRow)
  {
    && a.key == b.key
    && a.data.scope == b.data.scope
    && a.data.action == b.data.action
    && a.data.sha == b.data.sha
    && a.data.requestedAt == b.data.requestedAt
    && a.data.ingestedAt == b.data.ingestedAt
    && a.data.active == b.data.active
    && a.data.legacyInstallation == b.data.legacyInstallation
  }

  predicate IsFirst(row: SuppressionRow, key: RequestKey)
  {
    && row.key == key
    && row.data.status == Pending && row.data.attempts == 0
    && row.version == row.data.ingestedAt
    && row.data.active
    && ValidScope(row.data.scope) && row.data.scope.product == key.product
    && (row.data.legacyInstallation.Some? ==> row.data.action == Delete)
  }

  /** The status machine: which row may come directly after which. */
  predicate Follows(a: SuppressionRow, b: SuppressionRow, maxAttempts: nat)
  {
    && SameRequest(a, b)
    && b.version == StatusVersion(b.data.ingestedAt, b.data.status, b.data.attempts)
    && match b.data.status
       case Pending => false
       case Processing => a.data.status in {Pending, Retry, Processing} && b.data.attempts == a.data.attempts + 1
       case Retry => a.data.status == Processing && b.data.attempts == a.data.attempts < maxAttempts
       case Failed => a.data.status == Processing && b.data.attempts == a.data.attempts >= maxAttempts
       case Completed => a.data.status == Processing && b.data.attempts == a.data.attempts
  }

  ghost predicate WellFormed(rows: seq<SuppressionRow>, key: RequestKey, maxAttempts: nat)
  {
    && rows != []
    && IsFirst(rows[0], key)
    && forall i | 0 < i < |rows| :: Follows(rows[i - 1], rows[i], maxAttempts)
  }

  lemma {:induction false} RowsAgree(rows: seq<SuppressionRow>, key: RequestKey, maxAttempts: nat, i: nat)
    requires WellFormed(rows, key, maxAttempts) && i < |rows|
    ensures SameRequest(rows[0], rows[i])
  {
    if i > 0 {
      RowsAgree(rows, key, maxAttempts, i - 1);
      assert Follows(rows[i - 1], rows[i], maxAttempts);
    }
  }

  lemma {:induction false} VersionRule(rows: seq<SuppressionRow>, key: RequestKey, maxAttempts: nat, i: nat)
    requires WellFormed(rows, key, maxAttempts) && i < |rows|
    ensures i == 0 ==> rows[i].version == rows[i].data.ingestedAt
    ensures i > 0 ==> rows[i].version == StatusVersion(rows[i].data.ingestedAt, rows[i].data.status, rows[i].data.attempts)
  {
    if i > 0 {
      assert Follows(rows[i - 1], rows[i], maxAttempts);
    }
  }

  /** Every later row of a request has a strictly greater version. */
  lemma {:induction false} VersionsIncrease(rows: seq<SuppressionRow>, key: RequestKey, maxAttempts: nat, i: nat, j: nat)
    requires WellFormed(rows, key, maxAttempts) && i < j < |rows|
    ensures rows[i].version < rows[j].version
    decreases j
  {
    if i < j - 1 {
      VersionsIncrease(rows, key, maxAttempts, i, j - 1);
    }
    assert Follows(rows[j - 1], rows[j], maxAttempts);
    VersionRule(rows, key, maxAttempts, j - 1);
    RowsAgree(rows, key, maxAttempts, j - 1);
    if j - 1 > 0 {
      assert Follows(rows[j - 2], rows[j - 1], maxAttempts);
    }
  }

  /** The attempt column counts the claims, as long as it has not wrapped. */
  lemma {:induction false} AttemptsAreClaims(rows: seq<SuppressionRow>, key: RequestKey, maxAttempts: nat)
    requires WellFormed(rows, key, maxAttempts)
    ensures Last(rows).data.attempts == Claims(rows)
    decreases |rows|
  {
    var front := rows[..|rows| - 1];
    if front == [] {
      assert Claims(front) == 0;
    } else {
      AttemptsAreClaims(front, key, maxAttempts);
      assert Follows(rows[|rows| - 2], rows[|rows| - 1], maxAttempts);
    }
  }

  lemma Extend(rows: seq<SuppressionRow>, key: RequestKey, maxAttempts: nat, row: SuppressionRow)
    requires WellFormed(rows, key, maxAttempts) && Follows(Last(rows), row, maxAttempts)
    ensures WellFormed(rows + [row], key, maxAttempts)
  {
    var longer := rows + [row];
    forall i | 0 < i < |longer|
      ensures Follows(longer[i - 1], longer[i], maxAttempts)
    {
      if i < |rows| {
        assert longer[i - 1] == rows[i - 1] && longer[i] == rows[i];
      }
    }
  }

  // ---------- Bounded retry ----------

  /** Claims whose outcome row was never stored, because the next row is another claim. */
  function LostClaims(rows: seq<SuppressionRow>): nat
  {
    if |rows| < 2 then 0
    else
      LostClaims(rows[..|rows| - 1]) +
      if rows[|rows| - 1].data.status == Processing && rows[|rows| - 2].data.status == Processing then 1 else 0
  }

  /** A request is claimed at most `maxAttempts` times, not counting the claims whose outcome was lost. */
  lemma {:induction false} ClaimsAreBounded(rows: seq<SuppressionRow>, key: RequestKey, maxAttempts: nat)
    requires maxAttempts >= 1 && WellFormed(rows, key, maxAttempts)
    ensures Claims(rows) <= maxAttempts + LostClaims(rows)
    decreases |rows|
  {
    var last := |rows| - 1;
    var front := rows[..last];
    if last == 0 {
      assert Claims(front) == 0;
    } else {
      ClaimsAreBounded(front, key, maxAttempts);
      assert Follows(rows[last - 1], rows[last], maxAttempts);
      assert Last(front) == rows[last - 1];
      AttemptsAreClaims(front, key, maxAttempts);
      if last > 1 && rows[last].data.status == Processing {
        assert Follows(rows[last - 2], rows[last - 1], maxAttempts);
      }
    }
  }

  /**
   Without a lost outcome, every claim that ends without settling the request
   brings it one step closer to `maxAttempts`, where it is settled.
   */
  lemma {:induction false} RetriesRunOut(rows: seq<SuppressionRow>, key: RequestKey, maxAttempts: nat)
    requires maxAttempts >= 1 && WellFormed(rows, key, maxAttempts)
    requires LostClaims(rows) == 0
    ensures Last(rows).data.status in {Pending, Retry} ==> Claims(rows) < maxAttempts
    ensures Claims(rows) == maxAttempts ==> Last(rows).data.status in {Processing, Completed, Failed}
    ensures Claims(rows) <= maxAttempts
  {
    ClaimsAreBounded(rows, key, maxAttempts);
    AttemptsAreClaims(rows, key, maxAttempts);
    if |rows| > 1 {
      assert Follows(rows[|rows| - 2], rows[|rows| - 1], maxAttempts);
    }
  }

  /** A settled request gets no further row. */
  lemma SettledIsLast(rows: seq<SuppressionRow>, key: RequestKey, maxAttempts: nat, i: nat)
    requires WellFormed(rows, key, maxAttempts) && i + 1 < |rows|
    ensures rows[i].data.status !in {Completed, Failed}
  {
    assert Follows(rows[i], rows[i + 1], maxAttempts);
  }

  /** Each backoff lies between one second and 128 seconds and never shrinks. */
  lemma BackoffIsBounded(attempts: nat)
    ensures 1000 <= RetryDelay(attempts) <= 128_000
    ensures RetryDelay(attempts) <= RetryDelay(attempts + 1)
    ensures 1 <= attempts < 8 ==> RetryDelay(attempts + 1) == 2 * RetryDelay(attempts)
  {
    PowersRise(if attempts < 1 then 0 else if attempts > 8 then 7 else attempts - 1, 7);
    assert PowerOfTwo(7) == 128 by {
      assert PowerOfTwo(5) == 32;
    }
  }

  /** A request may be taken as soon as it is stored, ... */
  lemma DueFromStart(request: NewRequest, at: int, now: int)
    ensures Due(PendingRowFor(request, at), now) <==> at <= now
  {
  }

  /** ... a claimed one when the five minutes of its lease are over, ... */
  lemma DueAfterLease(request: Request, attempts: nat, at: int, now: int)
    ensures Due(ClaimRow(request, attempts, at), now) <==> at + 300_000 < now
  {
  }

  /** ... one in retry after its backoff, and a settled one never. */
  lemma DueAfterBackoff(request: Request, succeeded: bool, maxAttempts: nat, at: int, now: int)
    ensures Due(OutcomeRow(request, succeeded, maxAttempts, at), now) <==>
              !succeeded && request.attempts < maxAttempts && at + RetryDelay(request.attempts) <= now
  {
    hide RetryDelay;
  }

  lemma {:induction false} PowersRise(a: nat, b: nat)
    requires a <= b
    ensures 1 <= PowerOfTwo(a) <= PowerOfTwo(b)
    decreases b
  {
    if a < b {
      PowersRise(a, b - 1);
    } else if a > 0 {
      PowersRise(a - 1, b - 1);
    }
  }

  /** The last row is the newest, and newer than its claim just when the claim wraps the counter. */
  lemma LastAgainstClaim(rows: seq<SuppressionRow>, key: RequestKey, maxAttempts: nat, claim: SuppressionRow)
    requires WellFormed(rows, key, maxAttempts) && Claims(rows) < 0x1_0000
    requires Last(rows).data.status in {Pending, Retry, Processing}
    requires claim.version == StatusVersion(Last(rows).data.ingestedAt, Processing, NextAttempt(Last(rows).data.attempts))
    ensures Last(rows).version < claim.version <==> Claims(rows) < 0xFFFF
    ensures claim.version < Last(rows).version <==> Claims(rows) == 0xFFFF
  {
    AttemptsAreClaims(rows, key, maxAttempts);
    VersionRule(rows, key, maxAttempts, |rows| - 1);
    hide WellFormed, Claims;
  }

  lemma LastIsNewest(rows: seq<SuppressionRow>, key: RequestKey, maxAttempts: nat, i: nat)
    requires WellFormed(rows, key, maxAttempts) && i < |rows|
    ensures rows[i].version <= Last(rows).version
  {
    if i < |rows| - 1 {
      VersionsIncrease(rows, key, maxAttempts, i, |rows| - 1);
    }
  }

  /**
   A claim is newer than every row stored before it exactly as long as the
   UInt16 counter has room for it: claim number 65536 would count as none.
   */
  lemma ClaimIsNewestExactly(rows: seq<SuppressionRow>, key: RequestKey, maxAttempts: nat, now: int)
    requires WellFormed(rows, key, maxAttempts) && Claims(rows) < 0x1_0000
    requires Last(rows).data.status in {Pending, Retry, Processing}
    ensures (forall i | 0 <= i < |rows| :: rows[i].version < ClaimRow(Snapshot(Last(rows)), Last(rows).data.attempts, now).version)
       <==> Claims(rows) < 0xFFFF
  {
    var claim := ClaimRow(Snapshot(Last(rows)), Last(rows).data.attempts, now);
    LastAgainstClaim(rows, key, maxAttempts, claim);
    hide WellFormed, Claims, ClaimRow;
    forall i | 0 <= i < |rows|
      ensures rows[i].version <= Last(rows).version
    {
      LastIsNewest(rows, key, maxAttempts, i);
    }
    assert Last(rows) == rows[|rows| - 1];
  }

  /** A request whose outcomes are all lost can come to any number of claims. */
  lemma {:induction false} ClaimedSoOften(first: SuppressionRow, maxAttempts: nat, n: nat) returns (rows: seq<SuppressionRow>)
    requires IsFirst(first, first.key)
    ensures WellFormed(rows, first.key, maxAttempts) && Claims(rows) == n
    ensures Last(rows).data.status in {Pending, Processing}
  {
    if n == 0 {
      rows := [first];
      assert Claims(rows[..0]) == 0;
    } else {
      var front := ClaimedSoOften(first, maxAttempts, n - 1);
      RowsAgree(front, first.key, maxAttempts, |front| - 1);
      AttemptsAreClaims(front, first.key, maxAttempts);
      var claim := StatusRowFor(Snapshot(Last(front)), Processing, n, 0, Some(LEASE));
      RowsAgree(front, first.key, maxAttempts, 0);
      Extend(front, first.key, maxAttempts, claim);
      rows := front + [claim];
      assert rows[..|rows| - 1] == front;
    }
  }

  // ---------- Passes ----------

  /** The request as the worker holds it once it has claimed it. */
  function Claimed(request: Request): Request
  {
    request.(attempts := NextAttempt(request.attempts))
  }

  /** One more row: the claim of a request that was due. */
  ghost predicate ClaimStored(rows: seq<SuppressionRow>, rows': seq<SuppressionRow>, request: Request)
  {
    rows != [] && exists now :: Due(Last(rows), now) && rows' == rows + [ClaimRow(request, request.attempts, now)]
  }

  /** One more row: the outcome of the claim. */
  ghost predicate OutcomeStored(
    rows: seq<SuppressionRow>, rows': seq<SuppressionRow>, request: Request, succeeded: bool, maxAttempts: nat)
  {
    exists now :: rows' == rows + [OutcomeRow(request, succeeded, maxAttempts, now)]
  }

  /** Two more rows: the request was due, was claimed, and the outcome of that claim is stored. */
  ghost predicate PassStored(
    rows: seq<SuppressionRow>, rows': seq<SuppressionRow>, request: Request, succeeded: bool, maxAttempts: nat)
  {
    exists claimed :: ClaimStored(rows, claimed, request) && OutcomeStored(claimed, rows', Claimed(request), succeeded, maxAttempts)
  }

  /**
   Every pass brings a request one claim closer to `maxAttempts`; it ends
   completed, or failed if the claims are used up, or else in retry.
   */
  lemma PassDecreases(
    rows: seq<SuppressionRow>, rows': seq<SuppressionRow>, key: RequestKey, maxAttempts: nat, request: Request, succeeded: bool)
    requires WellFormed(rows', key, maxAttempts) && PassStored(rows, rows', request, succeeded, maxAttempts)
    ensures rows <= rows' && Claims(rows') == Claims(rows) + 1
    ensures maxAttempts - Claims(rows') < maxAttempts - Claims(rows)
    ensures Last(rows').data.status == if succeeded then Completed else if Claims(rows') >= maxAttempts then Failed else Retry
    ensures Last(rows).data.status !in {Completed, Failed}
  {
    var claimed :| ClaimStored(rows, claimed, request) && OutcomeStored(claimed, rows', Claimed(request), succeeded, maxAttempts);
    hide WellFormed, PassStored;
    ClaimAppends(rows, claimed, request);
    OutcomeAppends(claimed, rows', Claimed(request), succeeded, maxAttempts);
    AttemptsAreClaims(rows', key, maxAttempts);
  }

  lemma ClaimAppends(rows: seq<SuppressionRow>, claimed: seq<SuppressionRow>, request: Request)
    requires ClaimStored(rows, claimed, request)
    ensures rows <= claimed && rows != [] && Claims(claimed) == Claims(rows) + 1
    ensures Last(rows).data.status !in {Completed, Failed}
  {
    assert claimed[..|claimed| - 1] == rows;
  }

  lemma OutcomeAppends(
    claimed: seq<SuppressionRow>, rows': seq<SuppressionRow>, request: Request, succeeded: bool, maxAttempts: nat)
    requires OutcomeStored(claimed, rows', request, succeeded, maxAttempts)
    ensures claimed <= rows' && rows' != [] && Claims(rows') == Claims(claimed)
    ensures Last(rows').data.status == OutcomeStatus(request, succeeded, maxAttempts)
    ensures Last(rows').data.attempts == request.attempts
  {
    assert rows'[..|rows'| - 1] == claimed;
  }

  // ---------- Progress rows of a table ----------

  predicate MarkFollows(a: ProgressRow, b: ProgressRow, ingestedAt: int)
  {
    && a.key == b.key
    && b.version == StatusVersion(ingestedAt, b.data.status, b.data.attempts)
    && match b.data.status
       case Processing => a.data.status in {Processing, Retry} && b.data.attempts == a.data.attempts + 1
       case Retry => a.data.status == Processing && b.data.attempts == a.data.attempts
       case Completed => a.data.status == Processing && b.data.attempts == a.data.attempts
       case _ => false
  }

  ghost predicate WellMarked(rows: seq<ProgressRow>, key: ProgressKey, ingestedAt: int)
  {
    && rows != []
    && rows[0] == Row(key, StatusVersion(ingestedAt, Processing, 1), ProgressData(Processing, 1))
    && forall i | 0 < i < |rows| :: MarkFollows(rows[i - 1], rows[i], ingestedAt)
  }

  lemma {:induction false} MarksAgree(rows: seq<ProgressRow>, key: ProgressKey, ingestedAt: int, i: nat)
    requires WellMarked(rows, key, ingestedAt) && i < |rows|
    ensures rows[i].key == key
    ensures rows[i].version == StatusVersion(ingestedAt, rows[i].data.status, rows[i].data.attempts)
  {
    if i > 0 {
      MarksAgree(rows, key, ingestedAt, i - 1);
      assert MarkFollows(rows[i - 1], rows[i], ingestedAt);
    }
  }

  /** Every later progress row of a table has a strictly greater version. */
  lemma {:induction false} MarkVersionsIncrease(rows: seq<ProgressRow>, key: ProgressKey, ingestedAt: int, i: nat, j: nat)
    requires WellMarked(rows, key, ingestedAt) && i < j < |rows|
    ensures rows[i].version < rows[j].version
    decreases j
  {
    if i < j - 1 {
      MarkVersionsIncrease(rows, key, ingestedAt, i, j - 1);
    }
    assert MarkFollows(rows[j - 1], rows[j], ingestedAt);
    MarksAgree(rows, key, ingestedAt, j - 1);
  }

  lemma ExtendMarks(rows: seq<ProgressRow>, key: ProgressKey, ingestedAt: int, row: ProgressRow)
    requires WellMarked(rows, key, ingestedAt) && MarkFollows(Last(rows), row, ingestedAt)
    ensures WellMarked(rows + [row], key, ingestedAt)
  {
    var longer := rows + [row];
    forall i | 0 < i < |longer|
      ensures MarkFollows(longer[i - 1], longer[i], ingestedAt)
    {
      if i < |rows| {
        assert longer[i - 1] == rows[i - 1] && longer[i] == rows[i];
      }
    }
  }

  /** A completed table gets no further row. */
  lemma CompletedMarkIsLast(rows: seq<ProgressRow>, key: ProgressKey, ingestedAt: int, i: nat)
    requires WellMarked(rows, key, ingestedAt) && i + 1 < |rows|
    ensures rows[i].data.status != Completed
  {
    assert MarkFollows(rows[i], rows[i + 1], ingestedAt);
  }
}
