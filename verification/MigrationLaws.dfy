/**
 What any number of migration runs keep, wherever they break off.
 */
module MigrationLaws {
  import opened Tables
  import opened Migrations
  import opened MigrationRunner

  // ---------- Statements come before their record ----------

  /** Right before a stored ledger row stand all statements of its migration, acknowledged and in order. */
  ghost predicate RanBefore(log: seq<Event>, j: nat)
    requires j < |log| && log[j].Noted?
  {
    var n := |log[j].migration.statements|;
    n <= j && log[j - n..j] == Rans(log[j].migration.statements)
  }

  ghost predicate LogOk(log: seq<Event>)
  {
    forall j | 0 <= j < |log| && log[j].Noted? && log[j].ok :: RanBefore(log, j)
  }

  lemma LogsJoin(a: seq<Event>, b: seq<Event>)
    requires LogOk(a) && LogOk(b)
    ensures LogOk(a + b)
  {
    var log := a + b;
    forall j | 0 <= j < |log| && log[j].Noted? && log[j].ok
      ensures RanBefore(log, j)
    {
      if j < |a| {
        assert RanBefore(a, j);
        assert log[j - |log[j].migration.statements|..j] == a[j - |log[j].migration.statements|..j];
      } else {
        assert RanBefore(b, j - |a|);
        assert log[j - |log[j].migration.statements|..j]
            == b[j - |a| - |log[j].migration.statements|..j - |a|];
      }
    }
  }

  lemma StepsAreOk(m: Migration)
    ensures LogOk(StepsOf(m))
  {
    var log := StepsOf(m);
    assert log[0..|m.statements|] == Rans(m.statements);
  }

  lemma {:induction false} PlanIsOk(migrations: seq<Migration>, applied: map<nat, Applied>)
    ensures LogOk(Plan(migrations, applied))
  {
    if migrations != [] && !Drifts(migrations[0], applied) {
      PlanOfFirst(migrations, applied);
      PlanIsOk(migrations[1..], applied);
      StepsAreOk(migrations[0]);
      LogsJoin(StepsOf(migrations[0]), Plan(migrations[1..], applied));
    }
  }

  lemma PrefixIsOk(log: seq<Event>, n: nat)
    requires LogOk(log) && n <= |log|
    ensures LogOk(log[..n])
  {
    forall j | 0 <= j < n && log[..n][j].Noted? && log[..n][j].ok
      ensures RanBefore(log[..n], j)
    {
      assert RanBefore(log, j);
      assert log[..n][j - |log[j].migration.statements|..j] == log[j - |log[j].migration.statements|..j];
    }
  }

  lemma CutShortIsOk(events: seq<Event>, plan: seq<Event>)
    requires LogOk(plan) && CutShort(events, plan)
    ensures LogOk(events)
  {
    if events <= plan {
      PrefixIsOk(plan, |events|);
      assert plan[..|events|] == events;
    } else {
      var front, last := events[..|events| - 1], events[|events| - 1];
      PrefixIsOk(plan, |front|);
      assert plan[..|front|] == front && events == front + [last];
      LogsJoin(front, [last]);
    }
  }

  /** However a run ends, every recorded migration's statements all ran right before its record. */
  lemma RunKeepsLog(log: seq<Event>, migrations: seq<Migration>, applied: map<nat, Applied>, events: seq<Event>)
    requires LogOk(log) && CutShort(events, Plan(migrations, applied))
    ensures LogOk(log + events)
  {
    PlanIsOk(migrations, applied);
    CutShortIsOk(events, Plan(migrations, applied));
    LogsJoin(log, events);
  }

  // ---------- The ledger is a prefix ----------

  /** The ledger holds the rows of the first `n` migrations and no others. */
  ghost predicate IsLedgerOf(all: seq<Migration>, rows: seq<Applied>, n: nat)
  {
    && n <= |all|
    && (forall i | 0 <= i < n :: RowOf(all[i]) in rows)
    && (forall r | r in rows :: exists i :: 0 <= i < n && r == RowOf(all[i]))
  }

  lemma LedgerByVersion(all: seq<Migration>, rows: seq<Applied>, n: nat, i: nat)
    requires InOrder(all) && IsLedgerOf(all, rows, n) && i < |all|
    ensures all[i].version in ByVersion(rows) <==> i < n
    ensures !Drifts(all[i], ByVersion(rows))
  {
    ByVersionIsLast(rows, all[i].version);
    assert i < n ==> RowOf(all[i]) in rows;
    if all[i].version in ByVersion(rows) {
      var r := ByVersion(rows)[all[i].version];
      var k :| 0 <= k < n && r == RowOf(all[k]);
      assert k == i;
    }
  }

  function AllSteps(migrations: seq<Migration>): seq<Event>
  {
    if migrations == [] then [] else StepsOf(migrations[0]) + AllSteps(migrations[1..])
  }

  /** Over a prefix ledger, a run plans the steps of all the later migrations. */
  lemma {:induction false} PlanOfPrefix(all: seq<Migration>, rows: seq<Applied>, n: nat, k: nat, i: nat)
    requires InOrder(all) && IsLedgerOf(all, rows, n) && n <= k <= |all| && i <= k
    ensures Plan(all[i..k], ByVersion(rows)) == AllSteps(all[if i < n then n else i..k])
    decreases k - i
  {
    hide IsLedgerOf, InOrder, StepsOf, Drifts;
    if i < k {
      LedgerByVersion(all, rows, n, i);
      PlanOfFirst(all[i..k], ByVersion(rows));
      assert all[i..k][1..] == all[i + 1..k];
      PlanOfPrefix(all, rows, n, k, i + 1);
    }
  }

  /** Steps cut short have recorded the first few migrations. */
  lemma {:induction false} NotedByCut(migrations: seq<Migration>, events: seq<Event>) returns (n: nat)
    requires CutShort(events, AllSteps(migrations))
    ensures n <= |migrations| && NotedRows(events) == RowsOf(migrations[..n])
    ensures events == AllSteps(migrations) ==> n == |migrations|
  {
    if migrations == [] {
      n := 0;
    } else {
      var step, rest := StepsOf(migrations[0]), AllSteps(migrations[1..]);
      if |events| < |step| || (|events| == |step| && events != step) {
        n := 0;
        NothingNoted(migrations[0], rest, events);
      } else {
        var later := events[|step|..];
        assert events == step + later by {
          FullStep(step, rest, events);
        }
        CutAfter(step, rest, later);
        var k := NotedByCut(migrations[1..], later);
        NotedRowsJoin(step, later);
        NotesItself(migrations[0]);
        n := k + 1;
        assert migrations[..n][1..] == migrations[1..][..k];
      }
    }
  }

  function RowsOf(migrations: seq<Migration>): (rows: seq<Applied>)
    ensures |rows| == |migrations| && forall i | 0 <= i < |rows| :: rows[i] == RowOf(migrations[i])
  {
    if migrations == [] then [] else [RowOf(migrations[0])] + RowsOf(migrations[1..])
  }

  lemma FullStep(step: seq<Event>, rest: seq<Event>, events: seq<Event>)
    requires CutShort(events, step + rest) && |events| >= |step| && (|events| == |step| ==> events == step)
    ensures events[..|step|] == step
  {
  }

  lemma CutAfter(step: seq<Event>, rest: seq<Event>, later: seq<Event>)
    requires CutShort(step + later, step + rest)
    ensures CutShort(later, rest)
  {
    var events, plan := step + later, step + rest;
    if later != [] && !(events <= plan) {
      assert events[..|events| - 1] == step + later[..|later| - 1];
      assert forall j | 0 <= j < |later| - 1 :: later[j] == events[|step| + j] == plan[|step| + j] == rest[j];
      assert later[|later| - 1] == events[|events| - 1];
    } else if events <= plan {
      assert forall j | 0 <= j < |later| :: later[j] == events[|step| + j] == plan[|step| + j] == rest[j];
    }
  }

  lemma FullPrefix(events: seq<Event>, step: seq<Event>, rest: seq<Event>)
    requires events <= step + rest && |events| == |step|
    ensures events == step
  {
  }

  /** Within the steps of one migration nothing is recorded before the end. */
  lemma NothingNoted(m: Migration, rest: seq<Event>, events: seq<Event>)
    requires CutShort(events, StepsOf(m) + rest)
    requires |events| < |StepsOf(m)| || (|events| == |StepsOf(m)| && events != StepsOf(m))
    ensures NotedRows(events) == []
  {
    var n := |m.statements|;
    var plan := StepsOf(m) + rest;
    assert |StepsOf(m)| == n + 1 && forall j | 0 <= j < n :: plan[j] == Ran(m.statements[j], true);
    assert plan[n] == Noted(m, true);
    forall j | 0 <= j < |events|
      ensures !(events[j].Noted? && events[j].ok)
    {
      if j < |events| - 1 {
        assert events[j] == plan[j];
      } else if events <= plan {
        assert events[j] == plan[j];
        if j == n {
          FullPrefix(events, StepsOf(m), rest);
        }
      }
    }
    NoneNotedAtAll(events);
  }

  lemma {:induction false} NoneNotedAtAll(events: seq<Event>)
    requires forall j | 0 <= j < |events| :: !(events[j].Noted? && events[j].ok)
    ensures NotedRows(events) == []
  {
    if events != [] {
      NoneNotedAtAll(events[..|events| - 1]);
    }
  }

  /**
   A run of a binary that knows the first `k` migrations leaves a longer prefix
   of them in the ledger, wherever it breaks off; one that comes through leaves
   them all.
   */
  lemma RunKeepsPrefix(all: seq<Migration>, rows: seq<Applied>, n: nat, k: nat, events: seq<Event>) returns (n': nat)
    requires InOrder(all) && IsLedgerOf(all, rows, n) && n <= k <= |all|
    requires CutShort(events, Plan(all[..k], ByVersion(rows)))
    ensures n <= n' <= k && IsLedgerOf(all, rows + NotedRows(events), n')
    ensures events == Plan(all[..k], ByVersion(rows)) ==> n' == k
  {
    hide CutShort, Plan, NotedRows, InOrder, IsLedgerOf, RowsOf, AllSteps;
    PlanOfPrefix(all, rows, n, k, 0);
    PrefixSize(all, rows, n);
    assert all[0..k] == all[..k] && all[if 0 < n then n else 0..k] == all[n..k];
    var t := NotedByCut(all[n..k], events);
    n' := n + t;
    assert all[n..k][..t] == all[n..n + t];
    LedgerGrows(all, rows, n, t);
  }

  lemma PrefixSize(all: seq<Migration>, rows: seq<Applied>, n: nat)
    requires IsLedgerOf(all, rows, n)
    ensures n <= |all|
  {
  }

  lemma LedgerGrows(all: seq<Migration>, rows: seq<Applied>, n: nat, t: nat)
    requires IsLedgerOf(all, rows, n) && n + t <= |all|
    ensures IsLedgerOf(all, rows + RowsOf(all[n..n + t]), n + t)
  {
    var added := RowsOf(all[n..n + t]);
    assert forall i | 0 <= i < t :: added[i] == RowOf(all[n + i]);
    forall i | 0 <= i < n + t
      ensures RowOf(all[i]) in rows + added
    {
      if i >= n {
        assert added[i - n] == RowOf(all[i]);
      }
    }
    forall r | r in rows + added
      ensures exists i :: 0 <= i < n + t && r == RowOf(all[i])
    {
      if r !in rows {
        var i :| 0 <= i < t && added[i] == r;
        assert r == RowOf(all[n + i]);
      }
    }
  }

  /** An older binary refuses a ledger that is ahead of it. */
  lemma RollbackIsRefused(all: seq<Migration>, rows: seq<Applied>, n: nat, k: nat)
    requires InOrder(all) && IsLedgerOf(all, rows, n) && k < n
    ensures !Known(all[..k], rows)
  {
    var r := RowOf(all[n - 1]);
    assert r in rows;
    forall m | m in all[..k]
      ensures m.version != r.version
    {
    }
  }

  // ---------- Drift ----------

  /** The first migration that differs from its ledger row. */
  function FirstDrift(migrations: seq<Migration>, applied: map<nat, Applied>): (d: nat)
    ensures d <= |migrations|
    ensures forall i | 0 <= i < d :: !Drifts(migrations[i], applied)
    ensures d < |migrations| ==> Drifts(migrations[d], applied)
  {
    if migrations == [] || Drifts(migrations[0], applied) then 0 else 1 + FirstDrift(migrations[1..], applied)
  }

  /** Drift is found before anything is executed just when nothing before it is pending. */
  lemma {:induction false} DriftIsFoundFirst(migrations: seq<Migration>, applied: map<nat, Applied>)
    ensures Plan(migrations, applied) == [] <==>
              forall i | 0 <= i < FirstDrift(migrations, applied) :: migrations[i].version in applied
  {
    if migrations != [] && !Drifts(migrations[0], applied) {
      PlanOfFirst(migrations, applied);
      DriftIsFoundFirst(migrations[1..], applied);
      var d := FirstDrift(migrations, applied);
      assert d == 1 + FirstDrift(migrations[1..], applied);
      if migrations[0].version in applied {
        assert (forall i | 0 <= i < d :: migrations[i].version in applied) <==>
               (forall i | 0 <= i < d - 1 :: migrations[1..][i].version in applied) by {
          assert forall i | 0 < i < d :: migrations[i] == migrations[1..][i - 1];
        }
      } else {
        assert StepsOf(migrations[0]) != [];
      }
    }
  }

  /** So over a prefix ledger nothing is executed when a recorded migration has changed. */
  lemma DriftStopsPrefixRun(all: seq<Migration>, rows: seq<Applied>, n: nat, migrations: seq<Migration>)
    requires InOrder(all) && InOrder(migrations) && IsLedgerOf(all, rows, n)
    requires n <= |migrations| && forall i | 0 <= i < n :: migrations[i].version == all[i].version
    requires !NoDrift(migrations, ByVersion(rows))
    ensures Plan(migrations, ByVersion(rows)) == []
  {
    var applied := ByVersion(rows);
    DriftIsFoundFirst(migrations, applied);
    var m :| m in migrations && Drifts(m, applied);
    var j :| 0 <= j < |migrations| && migrations[j] == m;
    ByVersionIsLast(rows, m.version);
    var k :| 0 <= k < n && applied[m.version] == RowOf(all[k]);
    assert migrations[k].version == migrations[j].version;
    assert FirstDrift(migrations, applied) <= k;
    forall i | 0 <= i < n
      ensures migrations[i].version in applied
    {
      LedgerByVersion(all, rows, n, i);
    }
  }

  /** Over any other ledger, statements may run before the drift is found. */
  lemma DriftFoundLate()
    ensures var first, second := Migration(1, "001_a.sql", "a", ["A"]), Migration(2, "002_b.sql", "b", ["B"]);
            var rows := [Applied(2, "002_b.sql", "changed")];
            !NoDrift([first, second], ByVersion(rows)) && Plan([first, second], ByVersion(rows)) == StepsOf(first)
  {
    var first, second := Migration(1, "001_a.sql", "a", ["A"]), Migration(2, "002_b.sql", "b", ["B"]);
    var rows := [Applied(2, "002_b.sql", "changed")];
    assert rows[..0] == [] && ByVersion(rows) == map[2 := rows[0]];
    assert [first, second][1..] == [second];
    assert second in [first, second] && Drifts(second, ByVersion(rows));
    PlanOfFirst([first, second], ByVersion(rows));
    PlanOfFirst([second], ByVersion(rows));
  }

  // ---------- Running again ----------

  lemma {:induction false} ByVersionOfJoin(a: seq<Applied>, b: seq<Applied>)
    ensures ByVersion(a + b) == ByVersion(a) + ByVersion(b)
    decreases |b|
  {
    if b == [] {
      assert a + b == a;
    } else {
      assert (a + b)[..|a + b| - 1] == a + b[..|b| - 1];
      ByVersionOfJoin(a, b[..|b| - 1]);
    }
  }

  ghost predicate IsPending(migrations: seq<Migration>, applied: map<nat, Applied>, r: Applied)
  {
    exists m :: m in migrations && m.version !in applied && r == RowOf(m)
  }

  lemma PendingOfFirst(migrations: seq<Migration>, applied: map<nat, Applied>, r: Applied)
    requires migrations != []
    ensures IsPending(migrations, applied, r) <==>
              (migrations[0].version !in applied && r == RowOf(migrations[0])) || IsPending(migrations[1..], applied, r)
  {
    if m :| m in migrations && m.version !in applied && r == RowOf(m) {
      assert m == migrations[0] || m in migrations[1..];
    }
    if m :| m in migrations[1..] && m.version !in applied && r == RowOf(m) {
      assert m in migrations;
    }
  }

  /** A complete run records exactly the pending migrations. */
  lemma {:induction false} PlanNotes(migrations: seq<Migration>, applied: map<nat, Applied>, r: Applied)
    requires NoDrift(migrations, applied)
    ensures r in NotedRows(Plan(migrations, applied)) <==> IsPending(migrations, applied, r)
  {
    if migrations != [] {
      var first, rest := migrations[0], migrations[1..];
      assert NoDrift(rest, applied) by {
        assert forall m | m in rest :: m in migrations;
      }
      assert first in migrations;
      PlanOfFirst(migrations, applied);
      PlanNotes(rest, applied, r);
      hide NoDrift, Plan, NotedRows, StepsOf, IsPending;
      NotedRowsJoin(StepsOf(first), Plan(rest, applied));
      NotesItself(first);
      PendingOfFirst(migrations, applied, r);
    } else {
      NoneNoted();
    }
  }

  /** After a run that came through, another one has nothing to do. */
  lemma SecondRunIsIdle(migrations: seq<Migration>, rows: seq<Applied>)
    requires InOrder(migrations) && NoDrift(migrations, ByVersion(rows))
    ensures var rows' := rows + NotedRows(Plan(migrations, ByVersion(rows)));
            NoDrift(migrations, ByVersion(rows')) && Plan(migrations, ByVersion(rows')) == []
  {
    var noted := NotedRows(Plan(migrations, ByVersion(rows)));
    ByVersionOfJoin(rows, noted);
    var applied := ByVersion(rows + noted);
    forall m | m in migrations
      ensures m.version in applied && !Drifts(m, applied)
    {
      ByVersionIsLast(noted, m.version);
      PlanNotes(migrations, ByVersion(rows), RowOf(m));
      if m.version in ByVersion(noted) {
        PlanNotes(migrations, ByVersion(rows), ByVersion(noted)[m.version]);
        var q :| q in migrations && q.version !in ByVersion(rows) && ByVersion(noted)[m.version] == RowOf(q);
        var i :| 0 <= i < |migrations| && migrations[i] == m;
        var j :| 0 <= j < |migrations| && migrations[j] == q;
        assert i == j;
      }
    }
    DriftIsFoundFirst(migrations, applied);
  }

  /** What a complete run leaves: a row of each migration, with its own name and checksum, as the last of its version. */
  lemma CompleteRunRecords(migrations: seq<Migration>, rows: seq<Applied>, m: Migration)
    requires InOrder(migrations) && NoDrift(migrations, ByVersion(rows)) && m in migrations
    ensures var rows' := rows + NotedRows(Plan(migrations, ByVersion(rows)));
            m.version in ByVersion(rows') && !Drifts(m, ByVersion(rows'))
  {
    hide Plan, NotedRows, InOrder, Drifts;
    SecondRunIsIdle(migrations, rows);
    var applied := ByVersion(rows + NotedRows(Plan(migrations, ByVersion(rows))));
    DriftIsFoundFirst(migrations, applied);
    var i :| 0 <= i < |migrations| && migrations[i] == m;
    assert i < FirstDrift(migrations, applied) by {
      NoDriftIsLast(migrations, applied);
    }
  }

  lemma NoDriftIsLast(migrations: seq<Migration>, applied: map<nat, Applied>)
    requires NoDrift(migrations, applied)
    ensures FirstDrift(migrations, applied) == |migrations|
  {
    hide Drifts;
  }

  /** Some migration of the first binary has another name or another checksum in the second. */
  ghost predicate Differ(migrations: seq<Migration>, changed: seq<Migration>)
  {
    exists m, q :: m in migrations && q in changed && q.version == m.version && (q.name != m.name || q.checksum != m.checksum)
  }

  /**
   A migration is applied for good: after a complete run, a binary in which one
   of the migrations has another name or other contents never gets done.  It
   stops with a mismatch just when it accepts the ledger and no statement fails.
   */
  method RunChanged(backend: Backend, migrations: seq<Migration>, changed: seq<Migration>)
    returns (first: RunResult, second: RunResult, ghost recorded: seq<Applied>)
    requires InOrder(migrations)
    modifies backend
    ensures first == Done && Differ(migrations, changed) ==>
              second != Done && (second == ChecksumMismatch <==> second != RunFailed && Known(changed, recorded) && Consistent(recorded))
    ensures first == Done ==> forall m | m in migrations :: exists r :: r in recorded && r.version == m.version
    ensures backend.reliable ==> first != RunFailed && second != RunFailed
  {
    hide Plan, NotedRows, CutShort, Known, Consistent, HasChanged, InOrder;
    ghost var rows0 := backend.rows;
    ghost var events;
    first, events := Run(backend, migrations);
    recorded := backend.rows;
    if first == Done {
      forall m | m in migrations
        ensures m.version in ByVersion(recorded) && !Drifts(m, ByVersion(recorded))
        ensures exists r :: r in recorded && r.version == m.version
      {
        CompleteRunRecords(migrations, rows0, m);
        ByVersionIsLast(recorded, m.version);
      }
    }
    second, events := Run(backend, changed);
    if first == Done && Differ(migrations, changed) {
      ghost var m, q :| m in migrations && q in changed && q.version == m.version && (q.name != m.name || q.checksum != m.checksum);
      assert Drifts(q, ByVersion(recorded));
      DriftsExactly(q, recorded);
    }
  }

  // ---------- Any number of runs ----------

  /**
   Any number of runs, each of a binary that knows some first part of the
   migrations and each breaking off anywhere: the ledger stays a prefix, every
   recorded migration ran completely right before its record, and nothing is
   executed by a binary that is behind.
   */
  method RunMany(backend: Backend, all: seq<Migration>, binaries: seq<nat>) returns (ghost n: nat)
    requires InOrder(all) && backend.rows == [] && backend.log == []
    requires forall k | k in binaries :: k <= |all|
    modifies backend
    ensures IsLedgerOf(all, backend.rows, n) && LogOk(backend.log)
  {
    hide CutShort, Plan, NotedRows, InOrder, Known, Consistent, LogOk;
    n := 0;
    NothingLogged();
    for i := 0 to |binaries|
      invariant IsLedgerOf(all, backend.rows, n) && LogOk(backend.log)
    {
      var k := binaries[i];
      assert k in binaries;
      ghost var rows0, log0 := backend.rows, backend.log;
      var result;
      ghost var events;
      result, events := Run(backend, all[..k]);
      RunKeepsLog(log0, all[..k], ByVersion(rows0), events);
      if n <= k {
        n := RunKeepsPrefix(all, rows0, n, k, events);
      } else {
        RollbackIsRefused(all, rows0, n, k);
        NoneNoted();
        assert backend.rows == rows0;
      }
    }
  }

  lemma NothingLogged()
    ensures LogOk([])
  {
  }
}
