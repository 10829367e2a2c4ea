/**
 A resumable run of the migrations over a ledger that may be behind, ahead, or
 in conflict with the binary.
 */
module MigrationRunner {
  import opened Tables
  import opened Migrations

  // ---------- What a run does ----------

  /** A statement was executed (`ok`: acknowledged), or a migration recorded (`ok`: stored). */
  datatype Event = Ran(statement: string, ok: bool) | Noted(migration: Migration, ok: bool)

  function Rans(statements: seq<string>): (events: seq<Event>)
    ensures |events| == |statements|
  {
    seq(|statements|, i requires 0 <= i < |statements| => Ran(statements[i], true))
  }

  function StepsOf(m: Migration): seq<Event>
  {
    Rans(m.statements) + [Noted(m, true)]
  }

  /** The ledger by version; of several rows the last one counts. */
  function ByVersion(rows: seq<Applied>): map<nat, Applied>
  {
    if rows == [] then map[] else ByVersion(rows[..|rows| - 1])[rows[|rows| - 1].version := rows[|rows| - 1]]
  }

  predicate Drifts(m: Migration, applied: map<nat, Applied>)
  {
    m.version in applied && (applied[m.version].name != m.name || applied[m.version].checksum != m.checksum)
  }

  /** The last ledger row of the migration's version has another name or another checksum. */
  ghost predicate HasChanged(m: Migration, rows: seq<Applied>)
  {
    exists i :: && 0 <= i < |rows| && rows[i].version == m.version
                && (forall j | i < j < |rows| :: rows[j].version != m.version)
                && (rows[i].name != m.name || rows[i].checksum != m.checksum)
  }

  /** Pending migrations step by step, up to the first that differs from its ledger row. */
  function Plan(migrations: seq<Migration>, applied: map<nat, Applied>): seq<Event>
  {
    if migrations == [] || Drifts(migrations[0], applied) then []
    else (if migrations[0].version in applied then [] else StepsOf(migrations[0])) + Plan(migrations[1..], applied)
  }

  predicate NoDrift(migrations: seq<Migration>, applied: map<nat, Applied>)
  {
    forall m | m in migrations :: !Drifts(m, applied)
  }

  ghost predicate Known(migrations: seq<Migration>, rows: seq<Applied>)
  {
    forall r | r in rows :: exists m :: m in migrations && m.version == r.version
  }

  ghost predicate Consistent(rows: seq<Applied>)
  {
    forall r, q | r in rows && q in rows && r.version == q.version :: r.checksum == q.checksum
  }

  /** `events` follows the plan, or breaks off at a failing step of it. */
  ghost predicate CutShort(events: seq<Event>, plan: seq<Event>)
  {
    || events <= plan
    || (&& 0 < |events| <= |plan| && events[..|events| - 1] <= plan
        && events[|events| - 1] == Broken(plan[|events| - 1]))
  }

  function Broken(e: Event): Event
  {
    match e
    case Ran(statement, _) => Ran(statement, false)
    case Noted(m, _) => Noted(m, false)
  }

  function NotedRows(events: seq<Event>): seq<Applied>
  {
    if events == [] then []
    else
      var last := events[|events| - 1];
      NotedRows(events[..|events| - 1]) + if last.Noted? && last.ok then [RowOf(last.migration)] else []
  }

  // ---------- The runner ----------

  class Backend {
    var rows: seq<Applied>
    ghost var log: seq<Event>
    const reliable: bool

    constructor (reliable: bool)
      ensures rows == [] && log == [] && this.reliable == reliable
    {
      rows, log, this.reliable := [], [], reliable;
    }

    method Prepare() returns (ok: bool)
      ensures reliable ==> ok
    {
      ok := *;
      ok := ok || reliable;
    }

    method ReadLedger() returns (ok: bool, found: seq<Applied>)
      ensures ok ==> found == rows
      ensures reliable ==> ok
    {
      ok := *;
      ok, found := ok || reliable, rows;
    }

    method Execute(statement: string) returns (ok: bool)
      modifies `log
      ensures log == old(log) + [Ran(statement, ok)]
      ensures reliable ==> ok
    {
      ok := *;
      ok := ok || reliable;
      log := log + [Ran(statement, ok)];
    }

    /** The row may be stored although the insert fails. */
    method Note(m: Migration) returns (ok: bool, ghost stored: bool)
      modifies `rows, `log
      ensures log == old(log) + [Noted(m, stored)]
      ensures rows == old(rows) + if stored then [Applied(m.version, m.name, m.checksum)] else []
      ensures ok ==> stored
      ensures reliable ==> ok
    {
      var arrives: bool := *;
      ok := *;
      arrives := arrives || reliable;
      ok, stored := arrives && (ok || reliable), arrives;
      if arrives {
        rows := rows + [RowOf(m)];
      }
      log := log + [Noted(m, arrives)];
    }
  }

  datatype RunResult = Done | UnknownVersion | ConflictingRows | ChecksumMismatch | RunFailed

  lemma {:induction false} ByVersionIsLast(rows: seq<Applied>, v: nat)
    ensures v in ByVersion(rows) <==> exists r :: r in rows && r.version == v
    ensures v in ByVersion(rows) ==> ByVersion(rows)[v] in rows && ByVersion(rows)[v].version == v
  {
    if rows != [] {
      var front, last := rows[..|rows| - 1], rows[|rows| - 1];
      assert rows == front + [last];
      ByVersionIsLast(front, v);
    }
  }

  lemma {:induction false} ByVersionIsLastRow(rows: seq<Applied>, i: nat)
    requires i < |rows| && forall j | i < j < |rows| :: rows[j].version != rows[i].version
    ensures rows[i].version in ByVersion(rows) && ByVersion(rows)[rows[i].version] == rows[i]
    decreases |rows|
  {
    var front := rows[..|rows| - 1];
    if i < |front| {
      ByVersionIsLastRow(front, i);
    }
  }

  /** Drift, told by the rows: the last one of the version has another name or checksum. */
  lemma {:induction false} DriftsExactly(m: Migration, rows: seq<Applied>)
    ensures Drifts(m, ByVersion(rows)) <==> HasChanged(m, rows)
    decreases |rows|
  {
    if i :| 0 <= i < |rows| && rows[i].version == m.version && forall j | i < j < |rows| :: rows[j].version != m.version {
      ByVersionIsLastRow(rows, i);
    } else {
      NoLastRow(m, rows);
      ByVersionIsLast(rows, m.version);
    }
  }

  lemma {:induction false} NoLastRow(m: Migration, rows: seq<Applied>)
    requires forall i | 0 <= i < |rows| && rows[i].version == m.version :: exists j :: i < j < |rows| && rows[j].version == m.version
    ensures forall r | r in rows :: r.version != m.version
  {
    if r :| r in rows && r.version == m.version {
      var i :| 0 <= i < |rows| && rows[i] == r;
      LaterAndLater(m, rows, i);
    }
  }

  lemma LaterAndLater(m: Migration, rows: seq<Applied>, i: nat)
    requires i < |rows| && rows[i].version == m.version
    requires forall i | 0 <= i < |rows| && rows[i].version == m.version :: exists j :: i < j < |rows| && rows[j].version == m.version
    ensures false
    decreases |rows| - i
  {
    var j :| i < j < |rows| && rows[j].version == m.version;
    LaterAndLater(m, rows, j);
  }

  /** Reads the ledger into a map, refusing versions the binary does not know and rows that disagree. */
  method CollectApplied(migrations: seq<Migration>, rows: seq<Applied>) returns (refused: Option<RunResult>, applied: map<nat, Applied>)
    ensures refused.None? ==> applied == ByVersion(rows)
    ensures refused.None? <==> Known(migrations, rows) && Consistent(rows)
    ensures refused.Some? ==> refused.value in {UnknownVersion, ConflictingRows}
    ensures refused == Some(UnknownVersion) ==> !Known(migrations, rows)
    ensures refused == Some(ConflictingRows) ==> !Consistent(rows)
  {
    var embedded := set m | m in migrations :: m.version;
    applied := map[];
    for i := 0 to |rows|
      invariant applied == ByVersion(rows[..i])
      invariant Known(migrations, rows[..i]) && Consistent(rows[..i])
    {
      var row := rows[i];
      assert row in rows && rows[..i + 1] == rows[..i] + [row] && rows[..i + 1][..i] == rows[..i];
      ByVersionIsLast(rows[..i], row.version);
      if row.version !in embedded {
        return Some(UnknownVersion), map[];
      }
      if row.version in applied && applied[row.version].checksum != row.checksum {
        assert applied[row.version] in rows[..i] && applied[row.version] in rows;
        return Some(ConflictingRows), map[];
      }
      applied := applied[row.version := row];
    }
    assert rows[..|rows|] == rows;
    refused := None;
  }

  lemma {:induction false} NotedRowsJoin(a: seq<Event>, b: seq<Event>)
    ensures NotedRows(a + b) == NotedRows(a) + NotedRows(b)
    decreases |b|
  {
    if b == [] {
      assert a + b == a;
    } else {
      assert (a + b)[..|a + b| - 1] == a + b[..|b| - 1];
      NotedRowsJoin(a, b[..|b| - 1]);
    }
  }

  lemma {:induction false} RansNoteNothing(statements: seq<string>)
    ensures NotedRows(Rans(statements)) == []
  {
    if statements != [] {
      assert Rans(statements)[..|statements| - 1] == Rans(statements[..|statements| - 1]);
      RansNoteNothing(statements[..|statements| - 1]);
    }
  }

  lemma NotesItself(m: Migration)
    ensures NotedRows(StepsOf(m)) == [Applied(m.version, m.name, m.checksum)]
  {
    NotedRowsJoin(Rans(m.statements), [Noted(m, true)]);
    RansNoteNothing(m.statements);
    assert [Noted(m, true)][..0] == [];
  }

  /** A part that breaks off breaks the whole off. */
  lemma CutShortWithin(done: seq<Event>, cut: seq<Event>, step: seq<Event>, rest: seq<Event>)
    requires CutShort(cut, step)
    ensures CutShort(done + cut, done + step + rest)
  {
    var all, plan := done + cut, done + step + rest;
    if !(cut <= step) {
      assert all[..|all| - 1] == done + cut[..|cut| - 1];
    }
  }

  /** One pending migration: its statements in order, then its ledger row. */
  method Apply(backend: Backend, m: Migration) returns (ok: bool, ghost events: seq<Event>)
    modifies backend
    ensures backend.log == old(backend.log) + events && backend.rows == old(backend.rows) + NotedRows(events)
    ensures ok ==> events == StepsOf(m)
    ensures ok ==> backend.rows == old(backend.rows) + [Applied(m.version, m.name, m.checksum)]
    ensures CutShort(events, StepsOf(m))
    ensures backend.reliable ==> ok
  {
    hide NotedRows, StepsOf, CutShort, Rans;
    events := [];
    NoneRan();
    for i := 0 to |m.statements|
      invariant events == Rans(m.statements[..i])
      invariant backend.log == old(backend.log) + events && backend.rows == old(backend.rows)
    {
      ok := backend.Execute(m.statements[i]);
      events := events + [Ran(m.statements[i], ok)];
      if !ok {
        BreaksAtStatement(m, i);
        return;
      }
      OneMoreRan(m.statements, i);
    }
    assert m.statements[..|m.statements|] == m.statements;
    ghost var stored;
    ok, stored := backend.Note(m);
    events := events + [Noted(m, stored)];
    EndsWithNote(m, stored);
    NotesItself(m);
  }

  lemma NoneRan()
    ensures Rans([]) == []
  {
  }

  lemma OneMoreRan(statements: seq<string>, i: nat)
    requires i < |statements|
    ensures Rans(statements[..i]) + [Ran(statements[i], true)] == Rans(statements[..i + 1])
  {
  }

  lemma EndsWithNote(m: Migration, stored: bool)
    ensures var events := Rans(m.statements) + [Noted(m, stored)];
            && CutShort(events, StepsOf(m)) && (stored ==> events == StepsOf(m))
            && NotedRows(events) == if stored then [RowOf(m)] else []
  {
    var events := Rans(m.statements) + [Noted(m, stored)];
    assert events[..|events| - 1] == Rans(m.statements);
    RansNoteNothing(m.statements);
  }

  lemma BreaksAtStatement(m: Migration, i: nat)
    requires i < |m.statements|
    ensures var cut := Rans(m.statements[..i]) + [Ran(m.statements[i], false)];
            CutShort(cut, StepsOf(m)) && NotedRows(cut) == []
  {
    var cut := Rans(m.statements[..i]) + [Ran(m.statements[i], false)];
    RansNoteNothing(m.statements[..i]);
    assert cut[..i] == Rans(m.statements[..i]);
    assert StepsOf(m)[..i] == Rans(m.statements[..i]);
  }

  /** Everything that is pending, up to the first migration that differs from its ledger row. */
  method ApplyPending(backend: Backend, migrations: seq<Migration>, applied: map<nat, Applied>)
    returns (result: RunResult, ghost events: seq<Event>)
    modifies backend
    ensures backend.log == old(backend.log) + events && backend.rows == old(backend.rows) + NotedRows(events)
    ensures CutShort(events, Plan(migrations, applied))
    ensures result in {Done, ChecksumMismatch, RunFailed}
    ensures result != RunFailed ==> events == Plan(migrations, applied)
    ensures result == Done ==> NoDrift(migrations, applied)
    ensures result == ChecksumMismatch ==> !NoDrift(migrations, applied)
    ensures backend.reliable ==> result != RunFailed
  {
    hide StepsOf, NotedRows, CutShort, Plan;
    events := [];
    NoneNoted();
    assert migrations[0..] == migrations;
    for i := 0 to |migrations|
      invariant backend.log == old(backend.log) + events && backend.rows == old(backend.rows) + NotedRows(events)
      invariant Plan(migrations, applied) == events + Plan(migrations[i..], applied)
      invariant forall m | m in migrations[..i] :: !Drifts(m, applied)
    {
      var m := migrations[i];
      assert migrations[..i + 1] == migrations[..i] + [m];
      PlanStep(migrations, i, applied, events);
      if m.version in applied {
        if applied[m.version].name != m.name || applied[m.version].checksum != m.checksum {
          FollowsItself(events);
          return ChecksumMismatch, events;
        }
      } else {
        var ok;
        ghost var cut;
        ok, cut := Apply(backend, m);
        NotedRowsJoin(events, cut);
        if !ok {
          CutShortWithin(events, cut, StepsOf(m), Plan(migrations[i + 1..], applied));
          return RunFailed, events + cut;
        }
        events := events + cut;
      }
    }
    assert migrations[..|migrations|] == migrations;
    PlanEnd(migrations, applied, events);
    FollowsItself(events);
    result := Done;
  }

  lemma PlanStep(migrations: seq<Migration>, i: nat, applied: map<nat, Applied>, done: seq<Event>)
    requires i < |migrations|
    requires Plan(migrations, applied) == done + Plan(migrations[i..], applied)
    ensures var m, rest := migrations[i], Plan(migrations[i + 1..], applied);
            Plan(migrations, applied) ==
              if Drifts(m, applied) then done else if m.version in applied then done + rest else done + StepsOf(m) + rest
  {
    hide Plan, StepsOf, Drifts;
    PlanOfFirst(migrations[i..], applied);
    assert migrations[i..][1..] == migrations[i + 1..] && migrations[i..][0] == migrations[i];
    JoinIsAssociative(done, StepsOf(migrations[i]), Plan(migrations[i + 1..], applied));
  }

  lemma PlanOfFirst(migrations: seq<Migration>, applied: map<nat, Applied>)
    requires migrations != []
    ensures Plan(migrations, applied) ==
              if Drifts(migrations[0], applied) then []
              else if migrations[0].version in applied then Plan(migrations[1..], applied)
              else StepsOf(migrations[0]) + Plan(migrations[1..], applied)
  {
    hide StepsOf;
    assert [] + Plan(migrations[1..], applied) == Plan(migrations[1..], applied);
  }

  lemma JoinIsAssociative(a: seq<Event>, b: seq<Event>, c: seq<Event>)
    ensures a + (b + c) == a + b + c && a + [] == a
  {
  }

  lemma PlanEnd(migrations: seq<Migration>, applied: map<nat, Applied>, done: seq<Event>)
    requires Plan(migrations, applied) == done + Plan(migrations[|migrations|..], applied)
    ensures Plan(migrations, applied) == done
  {
  }

  lemma FollowsItself(done: seq<Event>)
    ensures CutShort(done, done)
  {
  }

  /** Brings the database up to the binary's migrations. */
  method Run(backend: Backend, migrations: seq<Migration>) returns (result: RunResult, ghost events: seq<Event>)
    modifies backend
    ensures backend.log == old(backend.log) + events && backend.rows == old(backend.rows) + NotedRows(events)
    ensures CutShort(events, Plan(migrations, ByVersion(old(backend.rows))))
    ensures result == Done || result == ChecksumMismatch ==> events == Plan(migrations, ByVersion(old(backend.rows)))
    ensures result == Done ==> NoDrift(migrations, ByVersion(old(backend.rows)))
    ensures result == ChecksumMismatch ==> !NoDrift(migrations, ByVersion(old(backend.rows)))
    ensures result != RunFailed ==>
              (result == ChecksumMismatch <==>
                 && Known(migrations, old(backend.rows)) && Consistent(old(backend.rows))
                 && exists m :: m in migrations && HasChanged(m, old(backend.rows)))
    ensures result == UnknownVersion ==> !Known(migrations, old(backend.rows))
    ensures result == ConflictingRows ==> !Consistent(old(backend.rows))
    ensures !(Known(migrations, old(backend.rows)) && Consistent(old(backend.rows))) ==>
              result in {UnknownVersion, ConflictingRows, RunFailed} && events == []
    ensures backend.reliable ==> result != RunFailed
  {
    hide Known, Consistent, StepsOf, NotedRows, Plan, Drifts, HasChanged;
    NoneNoted();
    forall m | m in migrations
      ensures Drifts(m, ByVersion(backend.rows)) <==> HasChanged(m, backend.rows)
    {
      DriftsExactly(m, backend.rows);
    }
    NothingCutShort(Plan(migrations, ByVersion(backend.rows)));
    events := [];
    var ok := backend.Prepare();
    if !ok {
      return RunFailed, [];
    }
    var rows;
    ok, rows := backend.ReadLedger();
    if !ok {
      return RunFailed, [];
    }
    var refused, applied := CollectApplied(migrations, rows);
    if refused.Some? {
      return refused.value, [];
    }
    result, events := ApplyPending(backend, migrations, applied);
  }

  lemma NothingCutShort(plan: seq<Event>)
    ensures CutShort([], plan)
  {
  }

  lemma NoneNoted()
    ensures NotedRows([]) == []
  {
  }
}
