/**
 The database as the store's methods see it: the tables, and the run of the
 protocol that led to their present contents.
 */
module Database {
  import opened Tables
  import opened Telemetry
  import opened Protocol
  import opened Invariant
  import opened Safety
  import opened Exactly
  import opened Atomic

  /** Runs that only other parties continued. */
  ghost predicate Continues(run: seq<Sys>, actions: seq<Action>, run': seq<Sys>, actions': seq<Action>)
  {
    |actions| <= |actions'| && |run| <= |run'| && run'[..|run|] == run && actions'[..|actions|] == actions
  }

  /** Without a statement of the writer, no body is accepted or forgotten. */
  lemma {:induction false} OthersAcceptNothing(run: seq<Sys>, actions: seq<Action>, i: nat, j: nat)
    requires IsRun(run, actions) && i <= j < |run|
    requires forall m | i <= m < j :: !actions[m].ByWriter?
    ensures Accepted(run[j]) == Accepted(run[i])
    decreases j
  {
    hide IsRun;
    if i < j {
      OthersAcceptNothing(run, actions, i, j - 1);
      RunLength(run, actions);
      RefinesAtomicStore(run, actions, j - 1);
    }
  }

  lemma RunLength(run: seq<Sys>, actions: seq<Action>)
    requires IsRun(run, actions)
    ensures |run| == |actions| + 1
  {
    hide Next;
  }

  /** Statements that store no status row count no claim. */
  lemma StillFits(run: seq<Sys>, actions: seq<Action>, s: Sys)
    requires IsRun(run, actions)
    ensures s.history == run[|run| - 1].history ==> CounterFits(s)
  {
    hide Init, Next;
    assert CounterFits(run[|run| - 1]);
  }

  /** One more action makes a longer run. */
  lemma RunExtends(run: seq<Sys>, actions: seq<Action>, a: Action, s: Sys)
    requires IsRun(run, actions)
    requires Next(run[|run| - 1], a, s) && CounterFits(s)
    ensures IsRun(run + [s], actions + [a])
    ensures AtomicStep(run[|run| - 1], a, s)
    ensures !Accepts(a) && !Forgets(a) ==> Accepted(s) == Accepted(run[|run| - 1])
    ensures Continues(run, actions, run + [s], actions + [a])
  {
    hide Init, Next;
    var run', actions' := run + [s], actions + [a];
    forall i | 0 <= i < |actions'|
      ensures Next(run'[i], actions'[i], run'[i + 1])
    {
      if i < |actions| {
        assert Next(run[i], actions[i], run[i + 1]);
      }
    }
    RefinesAtomicStore(run', actions', |actions|);
  }

  class Connection {
    var ledger: seq<LedgerRow>
    var registry: seq<RegistryRow>
    var streams: seq<StreamRow>
    var suppressions: seq<SuppressionRow>
    var progress: seq<ProgressRow>
    var v1Rows: seq<V1Row>
    // the mutations submitted so far, with the rows each of them covers
    var mutations: seq<Mutation>

    // where the writer, V1 ingest and the worker stand
    ghost var writer: WriterPc
    ghost var v1: V1Pc
    ghost var worker: WorkerPc
    ghost var history: map<RequestKey, seq<SuppressionRow>>
    ghost var marks: map<ProgressKey, seq<ProgressRow>>
    ghost const maxAttempts: nat

    // whether the server answers every statement and never loses an acknowledgement
    const reliable: bool

    // how the database got here
    ghost var run: seq<Sys>
    ghost var actions: seq<Action>

    ghost function State(): Sys
      reads this
    {
      Sys(ledger, registry, streams, suppressions, progress, v1Rows, mutations, writer, v1, worker, history, marks, maxAttempts)
    }

    ghost predicate Valid()
      reads this
    {
      |run| == |actions| + 1 && IsRun(run, actions) && State() == run[|run| - 1]
    }

    /** An empty database. */
    constructor (ghost maxAttempts: nat, reliable: bool)
      requires maxAttempts >= 1
      ensures Valid() && fresh(this)
      ensures writer == Idle && v1 == V1Idle && worker == Resting && this.maxAttempts == maxAttempts
      ensures ledger == [] && registry == [] && streams == [] && suppressions == [] && this.reliable == reliable
    {
      ledger, registry, streams, suppressions, progress, v1Rows := [], [], [], [], [], [];
      mutations, writer, v1, worker, history, marks := [], Idle, V1Idle, Resting, map[], map[];
      this.maxAttempts, this.reliable := maxAttempts, reliable;
      new;
      run, actions := [State()], [];
    }

    /** Notes that the statement just executed was action `a`. */
    ghost method Record(a: Action)
      requires |run| == |actions| + 1 && IsRun(run, actions)
      requires Next(run[|run| - 1], a, State())
      requires State().history == run[|run| - 1].history || CounterFits(State())
      modifies `run, `actions
      ensures Valid()
      ensures run == old(run) + [State()] && actions == old(actions) + [a]
      ensures Continues(old(run), old(actions), run, actions)
      ensures AtomicStep(old(run)[|old(run)| - 1], a, State())
      ensures !Accepts(a) && !Forgets(a) ==> Accepted(State()) == Accepted(old(run)[|old(run)| - 1])
    {
      hide IsRun, Next, AtomicStep, Accepted;
      StillFits(run, actions, State());
      RunExtends(run, actions, a, State());
      run, actions := run + [State()], actions + [a];
    }

    /**
     What the rest of the system may do between two statements of a holder of
     `v2Mu`: any run of the other parties.  The caller learns nothing else.
     */
    method OthersRun()
      requires Valid()
      modifies this
      ensures Valid() && Continues(old(run), old(actions), run, actions)
      ensures writer == old(writer)
      ensures HoldsV1(writer) ==> v1 == old(v1)
      ensures forall m | |old(actions)| <= m < |actions| :: !actions[m].ByWriter?
    {
    }

    /** The same between two statements of the worker. */
    method OthersRunBesideWorker()
      requires Valid()
      modifies this
      ensures Valid() && Continues(old(run), old(actions), run, actions)
      ensures worker == old(worker)
      ensures forall m | |old(actions)| <= m < |actions| :: !actions[m].ByWorker?
    {
    }

    /** The same between two statements of a holder of `v1Mu`. */
    method OthersRunBesideV1()
      requires Valid()
      modifies this
      ensures Valid() && Continues(old(run), old(actions), run, actions)
      ensures v1 == old(v1)
      ensures forall m | |old(actions)| <= m < |actions| :: !actions[m].ByV1?
    {
    }
  }

  /** How a statement ends: as it likes, unless the server is reliable. */
  method AnyOutcome(reliable: bool) returns (outcome: Outcome)
    ensures reliable ==> outcome == Acked
  {
    outcome := *;
    if reliable {
      outcome := Acked;
    }
  }

  /** Whether a read comes back at all. */
  method Reaches(reliable: bool) returns (ok: bool)
    ensures reliable ==> ok
  {
    ok := *;
    ok := ok || reliable;
  }

  method Now() returns (now: int)
  {
    now := *;
  }

  /** `SELECT ... FINAL WHERE key = ?`. */
  method SelectFinal<K(==), D(==)>(table: seq<Row<K, D>>, key: K) returns (found: Option<Row<K, D>>)
    ensures FinalRead(table, key, found)
  {
    found := Option.None;
    for i := 0 to |table|
      invariant match found
                case None => forall r | r in table[..i] :: r.key != key
                case Some(n) => n.key == key && n in table[..i] && forall r | r in table[..i] && r.key == key :: r.version <= n.version
    {
      assert table[..i + 1] == table[..i] + [table[i]];
      if table[i].key == key && (found.None? || found.value.version <= table[i].version) {
        found := Option.Some(table[i]);
      }
    }
    assert table[..|table|] == table;
  }

  /** Sends a prepared batch of rows: any part of it may be stored, all of it if acknowledged. */
  method Send<T(==)>(rows: seq<T>, reliable: bool) returns (stored: seq<T>, outcome: Outcome)
    ensures Sent(rows, stored, outcome)
    ensures reliable ==> outcome == Acked
  {
    outcome := AnyOutcome(reliable);
    stored := [];
    for i := 0 to |rows|
      invariant forall r | r in stored :: r in rows
      invariant outcome == Acked ==> forall r | r in rows[..i] :: r in stored
    {
      assert rows[..i + 1] == rows[..i] + [rows[i]];
      var arrives: bool := *;
      if outcome == Acked || (outcome == Lost && arrives) {
        stored := stored + [rows[i]];
      }
    }
    assert rows[..|rows|] == rows;
  }
}
