/**
 The importer as an object that reads lines, collects a batch and hands it to
 the store; and what becomes of an import that is run more than once.
 */
module Importer {
  import opened Tables
  import opened Telemetry
  import opened Protocol
  import opened Invariant
  import opened Safety
  import opened Exactly
  import opened Atomic
  import Facts
  import D = Database
  import S = Store
  import opened LegacyImport
  import opened ImportOutcome

  // ---------- The input as a whole ----------

  /** The events before the first line that does not decode. */
  function Events(lines: seq<Option<SourceEvent>>): seq<SourceEvent>
  {
    if lines == [] || lines[0].None? then [] else [lines[0].value] + Events(lines[1..])
  }

  lemma {:induction false} EventsPrefix(lines: seq<Option<SourceEvent>>, i: nat)
    requires i <= |lines| && forall j | 0 <= j < i :: lines[j].Some?
    ensures i <= |Events(lines)| && forall j | 0 <= j < i :: Events(lines)[j] == lines[j].value
    ensures (i == |lines| || lines[i].None?) ==> |Events(lines)| == i
  {
    if i > 0 {
      EventsPrefix(lines[1..], i - 1);
    }
  }

  /** Equal keys stand together. */
  ghost predicate Contiguous(naming: Naming, events: seq<SourceEvent>)
  {
    forall a, b, c | 0 <= a < b < c < |events| && ImportKey(naming, events[a]) == ImportKey(naming, events[c]) ::
      ImportKey(naming, events[b]) == ImportKey(naming, events[a])
  }

  /** What an import of these lines can get through. */
  ghost predicate Importable(naming: Naming, lines: seq<Option<SourceEvent>>)
  {
    (forall l | l in lines :: l.Some?) && Contiguous(naming, Events(lines))
  }

  // ---------- The importer's progress in the store ----------

  /** The batches of `parts` are in the store, and nothing but them and the batch under way is new. */
  ghost predicate Progress(before: set<Digest>, s: Sys, naming: Naming, parts: seq<seq<SourceEvent>>)
  {
    && before <= Accepted(s) <= before + Bodies(naming, parts)
    && forall c | c in parts && c != [] :: Arrived(s, BodyOf(naming, c))
  }

  ghost predicate Arrived(s: Sys, sha: Digest)
  {
    sha in Accepted(s) || DeletionRequested(s.history, sha.batch.scope)
  }

  lemma ProgressGoesOn(
    before: set<Digest>, s: Sys, s': Sys, naming: Naming, parts: seq<seq<SourceEvent>>, chunk: seq<SourceEvent>)
    requires Progress(before, s, naming, parts) && chunk != []
    requires Accepted(s') == Accepted(s) || Accepted(s') == Accepted(s) + {BodyOf(naming, chunk)}
    requires RequestsKept(s, s')
    ensures before <= Accepted(s') <= before + Bodies(naming, parts + [chunk])
    ensures Arrived(s', BodyOf(naming, chunk)) ==> Progress(before, s', naming, parts + [chunk])
  {
    hide Accepted, BodyOf;
    var more := parts + [chunk];
    assert forall c | c in parts :: c in more;
    assert chunk in more && BodyOf(naming, chunk) in Bodies(naming, more);
    assert Bodies(naming, parts) <= Bodies(naming, more);
  }

  ghost predicate RequestsKept(s: Sys, s': Sys)
  {
    forall scope | DeletionRequested(s.history, scope) :: DeletionRequested(s'.history, scope)
  }

  lemma RequestsRemain(run0: seq<Sys>, actions0: seq<Action>, run: seq<Sys>, actions: seq<Action>)
    requires |run0| == |actions0| + 1 && |run| == |actions| + 1 && D.Continues(run0, actions0, run, actions) && IsRun(run, actions)
    ensures RequestsKept(run0[|run0| - 1], run[|run| - 1])
  {
    hide IsRun;
    assert run[|actions0|] == run[..|run0|][|actions0|];
    RunRemembers(run, actions, |actions0|, |actions|);
    var s, s' := run[|actions0|], run[|actions|];
    forall scope | DeletionRequested(s.history, scope)
      ensures DeletionRequested(s'.history, scope)
    {
      DeletionStaysRequested(s, s', scope);
    }
  }

  // ---------- Half-way through the input ----------

  /** The importer's fields after `i` events of the input. */
  ghost predicate HasRead(
    naming: Naming, all: seq<SourceEvent>, i: nat, current: seq<SourceEvent>, currentKey: string, closedKeys: set<string>,
    flushed: seq<seq<SourceEvent>>)
  {
    && i <= |all|
    && |current| <= i && |current| <= MAX_BATCH_RECORDS && current == all[i - |current|..i]
    && (if i == 0 then currentKey == "" else current != [] && IsChunk(naming, current) && currentKey == ImportKey(naming, all[i - 1]))
    && Chunks(naming, all) == flushed + Chunks(naming, current + all[i..])
    && AreClosed(naming, all[..i], currentKey, closedKeys)
    && Contiguous(naming, all[..i])
  }

  ghost predicate AreClosed(naming: Naming, read: seq<SourceEvent>, currentKey: string, closedKeys: set<string>)
  {
    forall k :: k in closedKeys <==> k != currentKey && exists e :: e in read && ImportKey(naming, e) == k
  }

  lemma KeyIsNotEmpty(naming: Naming, e: SourceEvent)
    ensures ImportKey(naming, e) != ""
  {
  }

  /** Before an event of another subject, or after 500 of the same, the collected events are the next batch. */
  lemma FlushIsDue(
    naming: Naming, all: seq<SourceEvent>, i: nat, current: seq<SourceEvent>, currentKey: string, closedKeys: set<string>,
    flushed: seq<seq<SourceEvent>>)
    requires HasRead(naming, all, i, current, currentKey, closedKeys, flushed) && current != []
    requires i == |all| || ImportKey(naming, all[i]) != currentKey || |current| == MAX_BATCH_RECORDS
    ensures Chunks(naming, all) == flushed + [current] + Chunks(naming, all[i..])
  {
    hide Chunks;
    assert current[|current| - 1] == all[i - 1];
    NextChunk(naming, current, all[i..]);
  }

  lemma HasReadParts(
    naming: Naming, all: seq<SourceEvent>, i: nat, current: seq<SourceEvent>, currentKey: string, closedKeys: set<string>,
    flushed: seq<seq<SourceEvent>>)
    requires HasRead(naming, all, i, current, currentKey, closedKeys, flushed)
    ensures i <= |all| && |current| <= i && |current| <= MAX_BATCH_RECORDS && current == all[i - |current|..i]
    ensures if i == 0 then currentKey == "" else current != [] && IsChunk(naming, current) && currentKey == ImportKey(naming, all[i - 1])
    ensures Chunks(naming, all) == flushed + Chunks(naming, current + all[i..])
    ensures AreClosed(naming, all[..i], currentKey, closedKeys) && Contiguous(naming, all[..i])
  {
    hide Chunks, ImportKey, Contiguous, AreClosed, IsChunk;
  }

  /** The part that every event adds: its key is not closed. */
  lemma ReadsOneMore(
    naming: Naming, all: seq<SourceEvent>, i: nat, current: seq<SourceEvent>, currentKey: string, closedKeys: set<string>,
    flushed: seq<seq<SourceEvent>>)
    requires HasRead(naming, all, i, current, currentKey, closedKeys, flushed) && i < |all|
    requires ImportKey(naming, all[i]) !in closedKeys
    ensures Contiguous(naming, all[..i + 1])
    ensures var key := ImportKey(naming, all[i]);
            AreClosed(naming, all[..i + 1], key, if currentKey != "" && key != currentKey then closedKeys + {currentKey} else closedKeys)
  {
    hide *;
    HasReadParts(naming, all, i, current, currentKey, closedKeys, flushed);
    assert all[..i + 1] == all[..i] + [all[i]];
    if i > 0 {
      assert all[..i][i - 1] == all[i - 1];
    } else {
      assert all[..i] == [];
    }
    StaysContiguous(naming, all[..i], all[i], currentKey, closedKeys);
    ClosedKeysGrow(naming, all[..i], all[i], currentKey, closedKeys);
  }

  /** The fields after another event, put together. */
  lemma HasReadMore(
    naming: Naming, all: seq<SourceEvent>, i: nat, current: seq<SourceEvent>, key: string, closedKeys: set<string>,
    flushed: seq<seq<SourceEvent>>)
    requires i < |all| && |current| <= i && |current| < MAX_BATCH_RECORDS && current == all[i - |current|..i]
    requires IsChunk(naming, current + [all[i]]) && key == ImportKey(naming, all[i])
    requires Chunks(naming, all) == flushed + Chunks(naming, current + all[i..])
    requires AreClosed(naming, all[..i + 1], key, closedKeys) && Contiguous(naming, all[..i + 1])
    ensures HasRead(naming, all, i + 1, current + [all[i]], key, closedKeys, flushed)
  {
    hide Chunks, ImportKey, Contiguous, AreClosed, IsChunk;
    WindowMoves(all, i, current);
  }

  /** The first event of all, or one more of the same subject, is collected. */
  lemma Collects(
    naming: Naming, all: seq<SourceEvent>, i: nat, current: seq<SourceEvent>, currentKey: string, closedKeys: set<string>,
    flushed: seq<seq<SourceEvent>>)
    requires HasRead(naming, all, i, current, currentKey, closedKeys, flushed) && i < |all|
    requires i == 0 || (ImportKey(naming, all[i]) == currentKey && |current| < MAX_BATCH_RECORDS)
    requires ImportKey(naming, all[i]) !in closedKeys
    ensures HasRead(naming, all, i + 1, current + [all[i]], ImportKey(naming, all[i]), closedKeys, flushed)
  {
    hide HasRead, Chunks, ImportKey, Contiguous, AreClosed, IsChunk;
    HasReadParts(naming, all, i, current, currentKey, closedKeys, flushed);
    ReadsOneMore(naming, all, i, current, currentKey, closedKeys, flushed);
    ChunkGrows(naming, all, i, current, ImportKey(naming, all[i]));
    HasReadMore(naming, all, i, current, ImportKey(naming, all[i]), closedKeys, flushed);
  }

  /** After 500 of the same subject, the next event begins another batch. */
  lemma StartsBatch(
    naming: Naming, all: seq<SourceEvent>, i: nat, current: seq<SourceEvent>, currentKey: string, closedKeys: set<string>,
    flushed: seq<seq<SourceEvent>>)
    requires HasRead(naming, all, i, current, currentKey, closedKeys, flushed) && 0 < i < |all|
    requires ImportKey(naming, all[i]) == currentKey && |current| == MAX_BATCH_RECORDS
    requires ImportKey(naming, all[i]) !in closedKeys
    ensures HasRead(naming, all, i + 1, [all[i]], currentKey, closedKeys, flushed + [current])
  {
    hide HasRead, Chunks, ImportKey, Contiguous, AreClosed, IsChunk;
    ReadsOneMore(naming, all, i, current, currentKey, closedKeys, flushed);
    StartsAfresh(naming, all, i, current, currentKey, closedKeys, closedKeys, flushed);
  }

  /** An event of another subject begins another batch and closes the key before it. */
  lemma StartsKey(
    naming: Naming, all: seq<SourceEvent>, i: nat, current: seq<SourceEvent>, currentKey: string, closedKeys: set<string>,
    flushed: seq<seq<SourceEvent>>)
    requires HasRead(naming, all, i, current, currentKey, closedKeys, flushed) && 0 < i < |all|
    requires ImportKey(naming, all[i]) != currentKey && ImportKey(naming, all[i]) !in closedKeys
    ensures HasRead(naming, all, i + 1, [all[i]], ImportKey(naming, all[i]), closedKeys + {currentKey}, flushed + [current])
  {
    hide HasRead, Chunks, ImportKey, Contiguous, AreClosed, IsChunk;
    HasReadParts(naming, all, i, current, currentKey, closedKeys, flushed);
    KeyIsNotEmpty(naming, all[i - 1]);
    ReadsOneMore(naming, all, i, current, currentKey, closedKeys, flushed);
    StartsAfresh(naming, all, i, current, currentKey, closedKeys, closedKeys + {currentKey}, flushed);
  }

  /** What both have in common. */
  lemma StartsAfresh(
    naming: Naming, all: seq<SourceEvent>, i: nat, current: seq<SourceEvent>, currentKey: string, closedKeys: set<string>,
    closedKeys': set<string>, flushed: seq<seq<SourceEvent>>)
    requires HasRead(naming, all, i, current, currentKey, closedKeys, flushed) && 0 < i < |all|
    requires ImportKey(naming, all[i]) != currentKey || |current| == MAX_BATCH_RECORDS
    requires Contiguous(naming, all[..i + 1]) && AreClosed(naming, all[..i + 1], ImportKey(naming, all[i]), closedKeys')
    ensures HasRead(naming, all, i + 1, [all[i]], ImportKey(naming, all[i]), closedKeys', flushed + [current])
  {
    hide HasRead, Chunks, ImportKey, Contiguous, AreClosed;
    HasReadParts(naming, all, i, current, currentKey, closedKeys, flushed);
    assert [] + [all[i]] == [all[i]] && [] + all[i..] == all[i..] && all[i..i] == [];
    FlushIsDue(naming, all, i, current, currentKey, closedKeys, flushed);
    HasReadMore(naming, all, i, [], ImportKey(naming, all[i]), closedKeys', flushed + [current]);
  }

  lemma WindowMoves(all: seq<SourceEvent>, i: nat, current: seq<SourceEvent>)
    requires i < |all| && |current| <= i && current == all[i - |current|..i]
    ensures current + [all[i]] == all[i - |current|..i + 1]
    ensures (current + [all[i]]) + all[i + 1..] == current + all[i..]
  {
  }

  lemma ChunkGrows(naming: Naming, all: seq<SourceEvent>, i: nat, current: seq<SourceEvent>, key: string)
    requires i < |all| && key == ImportKey(naming, all[i])
    requires current != [] ==>
               && i > 0 && |current| <= i && current == all[i - |current|..i] && |current| < MAX_BATCH_RECORDS
               && IsChunk(naming, current) && key == ImportKey(naming, all[i - 1])
    ensures IsChunk(naming, current + [all[i]])
  {
    if current != [] {
      assert current[|current| - 1] == all[i - 1];
    }
  }

  lemma ClosedKeysGrow(naming: Naming, read: seq<SourceEvent>, next: SourceEvent, currentKey: string, closedKeys: set<string>)
    requires AreClosed(naming, read, currentKey, closedKeys) && ImportKey(naming, next) !in closedKeys
    requires if read == [] then currentKey == "" else currentKey == ImportKey(naming, read[|read| - 1])
    ensures var key := ImportKey(naming, next);
            AreClosed(naming, read + [next], key, if currentKey != "" && key != currentKey then closedKeys + {currentKey} else closedKeys)
  {
    if read != [] {
      KeyIsNotEmpty(naming, read[|read| - 1]);
      assert read[|read| - 1] in read;
    }
  }

  /** A closed key shows that the input is not grouped. */
  lemma ClosedMeansSplit(naming: Naming, all: seq<SourceEvent>, i: nat, currentKey: string, closedKeys: set<string>)
    requires i < |all| && AreClosed(naming, all[..i], currentKey, closedKeys)
    requires i > 0 ==> currentKey == ImportKey(naming, all[i - 1])
    requires ImportKey(naming, all[i]) in closedKeys
    ensures !Contiguous(naming, all)
  {
    hide ImportKey;
    var e :| e in all[..i] && ImportKey(naming, e) == ImportKey(naming, all[i]);
    var a :| 0 <= a < i && all[a] == e;
    assert a < i - 1;
    assert ImportKey(naming, all[i - 1]) != ImportKey(naming, all[a]);
  }

  lemma StaysContiguous(naming: Naming, read: seq<SourceEvent>, next: SourceEvent, currentKey: string, closedKeys: set<string>)
    requires Contiguous(naming, read) && AreClosed(naming, read, currentKey, closedKeys)
    requires read != [] ==> currentKey == ImportKey(naming, read[|read| - 1])
    requires ImportKey(naming, next) !in closedKeys
    ensures Contiguous(naming, read + [next])
  {
    var all := read + [next];
    forall a, b, c | 0 <= a < b < c < |all| && ImportKey(naming, all[a]) == ImportKey(naming, all[c])
      ensures ImportKey(naming, all[b]) == ImportKey(naming, all[a])
    {
      if c == |read| {
        assert read[a] in read && ImportKey(naming, read[a]) == currentKey;
        assert ImportKey(naming, read[|read| - 1]) == ImportKey(naming, read[a]);
      }
    }
  }

  // ---------- The importer ----------

  class Importer {
    const store: S.Store
    const naming: Naming
    const dryRun: bool
    const batchDelay: nat
    // is the context cancelled when a line is reached, and while waiting before it?
    const cancelled: nat -> bool
    const cancelledWaiting: nat -> bool

    var events: nat
    var batches: nat
    var replayed: nat
    var currentKey: string
    var current: seq<SourceEvent>
    var closedKeys: set<string>

    // the batches flushed so far
    ghost var flushed: seq<seq<SourceEvent>>

    constructor (
      store: S.Store, naming: Naming, dryRun: bool, batchDelay: nat, cancelled: nat -> bool, cancelledWaiting: nat -> bool)
      ensures this.store == store && this.naming == naming && this.dryRun == dryRun && this.cancelled == cancelled
      ensures IsNew()
    {
      this.store, this.naming, this.dryRun, this.batchDelay := store, naming, dryRun, batchDelay;
      this.cancelled, this.cancelledWaiting := cancelled, cancelledWaiting;
      events, batches, replayed, currentKey, current, closedKeys, flushed := 0, 0, 0, "", [], {}, [];
    }

    ghost predicate IsNew()
      reads this
    {
      events == batches == replayed == 0 && currentKey == "" && current == [] && closedKeys == {} && flushed == []
    }

    /** The batch and body of collected events; none if they mix subjects. */
    method BuildBatch(events: seq<SourceEvent>) returns (built: Option<Digest>)
      ensures built.Some? <==> events != [] && forall e | e in events :: SameSubject(e, events[0])
      ensures built.Some? ==> built.value == BodyOf(naming, events)
    {
      if |events| == 0 {
        return None;
      }
      var first := events[0];
      var sentAt := first.occurredAt;
      var records: seq<Record> := [];
      for i := 0 to |events|
        invariant forall e | e in events[..i] :: SameSubject(e, first)
        invariant records == RecordsOf(naming, events[..i])
        invariant sentAt == if i == 0 then first.occurredAt else SentAt(events[..i])
      {
        var event := events[i];
        assert events[..i + 1][..i] == events[..i] && events[..i + 1] == events[..i] + [event];
        if !SameSubject(event, first) {
          assert event in events;
          return None;
        }
        if event.occurredAt > sentAt {
          sentAt := event.occurredAt;
        }
        records := records + [Record(RecordId(naming, event), naming.payload(event))];
      }
      assert events[..|events|] == events;
      var batch := Batch(BatchId(naming, first, records[0].id, records[|records| - 1].id),
                         Scope(first.product, naming.productKey(first.product),
                               SubjectKey(naming, first.product, first.source, first.subject), None, None),
                         Product, records);
      built := Some(Digest(batch, sentAt));
    }

    ghost predicate StopsWaiting(line: nat)
    {
      batchDelay > 0 && cancelledWaiting(line)
    }

    /** Nobody cancels an import of so many lines, neither at a line nor while it waits before one. */
    ghost predicate Undisturbed(lines: nat)
    {
      && (forall i | 0 <= i < lines :: !cancelled(i))
      && (forall i | 0 <= i <= lines :: !StopsWaiting(i))
    }

    /** Hands the collected batch to the store. */
    method Flush(line: nat) returns (ok: bool)
      requires store.db.Valid() && store.db.writer == Idle && Sound(naming)
      requires current != [] ==> IsChunk(naming, current) && forall e | e in current :: ValidEvent(e)
      modifies this, store.db
      ensures store.db.Valid() && store.db.writer == Idle
      ensures D.Continues(old(store.db.run), old(store.db.actions), store.db.run, store.db.actions)
      ensures events == old(events) && closedKeys == old(closedKeys)
      ensures ok ==> current == [] && flushed == old(flushed) + if old(current) == [] then [] else [old(current)]
      ensures ok ==> (current == old(current) && currentKey == old(currentKey)) || currentKey == ""
      ensures ok ==> batches == old(batches) + if old(current) == [] then 0 else 1
      ensures !ok ==> flushed == old(flushed) && current == old(current) && current != []
      ensures dryRun || old(current) == [] ==> ok && store.db.State() == old(store.db.State()) && store.db.actions == old(store.db.actions)
      ensures dryRun || old(current) == [] ==> replayed == old(replayed)
      ensures !dryRun && old(current) != [] ==>
                var before, after, sha := Accepted(old(store.db.State())), Accepted(store.db.State()), BodyOf(naming, old(current));
                && (after == before || after == before + {sha})
                && (ok ==> Arrived(store.db.State(), sha))
                && (sha in before ==> S.Silent(store.db.actions, |old(store.db.actions)|))
                && (sha in before && ok ==> replayed == old(replayed) + 1)
                && (sha in before && store.db.reliable ==> ok)
                && S.Brings(old(store.db.State()), store.db.State(), {sha})
                && (store.db.reliable && !StopsWaiting(line) && !ok ==>
                      Suppressed(store.db.history, sha.batch.scope) || !FreeFor(store.db.State(), sha))
    {
      hide IsRun, Init, Next, CounterFits, AtomicStep, Inv, D.Continues, Accepted, DeletionRequested, Fresh, Suppressed, OnceUnderFinal,
           Sound, BodyOf, ImportKey, S.Silent, ValidBatch, S.OwnedElsewhere, FreeFor, S.Brings;
      S.ContinuesSame(store.db.run, store.db.actions);
      if |current| == 0 {
        return true;
      }
      OneSubject(naming, current);
      var built := BuildBatch(current);
      if built.None? {
        return false;
      }
      batches := batches + 1;
      if !dryRun {
        ChunkIsValidBatch(naming, current);
        assert ValidBatch(built.value.batch) by {
          BodyHoldsBatch(naming, current);
        }
        var result := store.InsertV2(built.value);
        if !result.Inserted? && !result.Replay? {
          if store.db.reliable {
            RefusalHasReason(store.db.State(), built.value, result);
          }
          return false;
        }
        if result.Replay? {
          replayed := replayed + 1;
        } else if batchDelay > 0 && cancelledWaiting(line) {
          return false;
        }
      }
      flushed := flushed + [current];
      current, currentKey := [], "";
      ok := true;
    }

    /** The batches flushed so far are in the store; if all of them were before, nothing was written. */
    ghost predicate Tracks(all: seq<SourceEvent>, run0: seq<Sys>, actions0: seq<Action>)
      requires run0 != []
      reads `batches, `replayed, `flushed, store.db
    {
      && store.db.Valid() && store.db.writer == Idle
      && D.Continues(run0, actions0, store.db.run, store.db.actions)
      && batches == |flushed|
      && (dryRun ==> store.db.State() == run0[|run0| - 1] && store.db.actions == actions0)
      && (!dryRun ==> Progress(Accepted(run0[|run0| - 1]), store.db.State(), naming, flushed))
      && (Bodies(naming, Chunks(naming, all)) <= Accepted(run0[|run0| - 1]) ==>
            S.Silent(store.db.actions, |actions0|) && (!dryRun ==> replayed == batches))
      && S.Brings(run0[|run0| - 1], store.db.State(), Bodies(naming, Chunks(naming, all)))
    }

    /** Flushing failed: at most the batch under way is new. */
    ghost predicate Stopped(all: seq<SourceEvent>, run0: seq<Sys>, actions0: seq<Action>)
      requires run0 != []
      reads `batches, `replayed, `flushed, store.db
    {
      var before, parts := Accepted(run0[|run0| - 1]), Chunks(naming, all);
      && store.db.Valid() && store.db.writer == Idle && !dryRun
      && D.Continues(run0, actions0, store.db.run, store.db.actions)
      && before <= Accepted(store.db.State()) <= before + Bodies(naming, parts)
      && (Bodies(naming, parts) <= before ==> S.Silent(store.db.actions, |actions0|) && !store.db.reliable)
      && S.Brings(run0[|run0| - 1], store.db.State(), Bodies(naming, parts))
      && MustStop(|all|, store.db.State(), parts)
    }

    /** A reliable server stops an undisturbed import at a suppressed batch or at rows of other bodies alone. */
    ghost predicate MustStop(lines: nat, s: Sys, parts: seq<seq<SourceEvent>>)
    {
      Undisturbed(lines) && store.db.reliable && AllFree(s, naming, parts) ==> AnySuppressed(s, naming, parts)
    }

    /** A flush at the end of a batch. */
    method FlushAt(
      line: nat, ghost all: seq<SourceEvent>, ghost i: nat, ghost run0: seq<Sys>, ghost actions0: seq<Action>)
      returns (ok: bool)
      requires |run0| == |actions0| + 1 && Tracks(all, run0, actions0) && Sound(naming)
      requires forall e | e in all :: ValidEvent(e)
      requires HasRead(naming, all, i, current, currentKey, closedKeys, flushed) && current != []
      requires i == |all| || ImportKey(naming, all[i]) != currentKey || |current| == MAX_BATCH_RECORDS
      requires line <= |all|
      modifies this, store.db
      ensures ok ==> Tracks(all, run0, actions0) && current == [] && flushed == old(flushed) + [old(current)]
      ensures ok ==> events == old(events) && closedKeys == old(closedKeys)
      ensures !ok ==> Stopped(all, run0, actions0)
    {
      hide Init, Next, D.Continues, Accepted, Sound, BodyOf, ImportKey, S.Silent, Chunks, Bodies, IsChunk, RequestsKept, Arrived,
           S.Brings, FreeFor, Suppressed;
      FlushIsDue(naming, all, i, current, currentKey, closedKeys, flushed);
      WindowIsSound(all, i - |current|, i);
      ghost var chunk, parts, before, s1 := current, flushed, Accepted(run0[|run0| - 1]), store.db.State();
      ghost var run1, actions1 := store.db.run, store.db.actions;
      ok := Flush(line);
      S.ContinuesOn(run0, actions0, run1, actions1, store.db.run, store.db.actions);
      if !dryRun {
        BodiesOfPrefix(naming, parts, chunk, Chunks(naming, all[i..]));
        RequestsRemain(run1, actions1, store.db.run, store.db.actions);
        ProgressGoesOn(before, s1, store.db.State(), naming, parts, chunk);
        ProgressBounds(before, s1, naming, parts);
        BringsMore(run0[|run0| - 1], s1, store.db.State(), BodyOf(naming, chunk), Bodies(naming, Chunks(naming, all)));
        assert chunk in parts + [chunk] + Chunks(naming, all[i..]);
      }
    }

    /** Before an event of another key, or when 500 are collected, the collected ones go out; another key closes theirs. */
    method FlushIfDue(
      line: nat, key: string, ghost all: seq<SourceEvent>, ghost run0: seq<Sys>, ghost actions0: seq<Action>) returns (ok: bool)
      requires |run0| == |actions0| + 1 && Tracks(all, run0, actions0) && Sound(naming)
      requires forall e | e in all :: ValidEvent(e)
      requires HasRead(naming, all, line, current, currentKey, closedKeys, flushed) && line < |all| && key == ImportKey(naming, all[line])
      modifies this, store.db
      ensures !ok ==> Stopped(all, run0, actions0)
      ensures ok ==> Tracks(all, run0, actions0) && events == old(events)
      ensures ok ==> closedKeys == if old(currentKey) != "" && key != old(currentKey) then old(closedKeys) + {old(currentKey)} else old(closedKeys)
      ensures ok ==>
                if old(currentKey) != "" && (key != old(currentKey) || |old(current)| == MAX_BATCH_RECORDS) then
                  current == [] && flushed == old(flushed) + [old(current)]
                else
                  current == old(current) && flushed == old(flushed)
    {
      hide *;
      HasReadFacts(naming, all, line, current, currentKey, closedKeys, flushed);
      ok := true;
      if currentKey != "" && (key != currentKey || |current| == MAX_BATCH_RECORDS) {
        var previousKey := currentKey;
        ok := FlushAt(line, all, line, run0, actions0);
        if ok && key != previousKey {
          closedKeys := closedKeys + {previousKey};
        }
      }
    }

    lemma StartsTracking(all: seq<SourceEvent>)
      requires IsNew() && store.db.Valid() && store.db.writer == Idle
      ensures |store.db.run| == |store.db.actions| + 1 && store.db.run[|store.db.run| - 1] == store.db.State()
      ensures Tracks(all, store.db.run, store.db.actions)
      ensures events == 0 && current == [] && currentKey == "" && closedKeys == {} && flushed == []
    {
      hide IsRun;
      S.ContinuesSame(store.db.run, store.db.actions);
    }

    lemma ImportableExactly(lines: seq<Option<SourceEvent>>)
      ensures Importable(naming, lines) <==> (forall l | l in lines :: l.Some?) && Contiguous(naming, Events(lines))
    {
    }

    /** Nothing but batches of the input is new in the store; a dry run wrote nothing, nor did an import of what was there. */
    ghost predicate Bounded(all: seq<SourceEvent>, run0: seq<Sys>, actions0: seq<Action>)
      requires run0 != []
      reads store.db
    {
      var before, parts := Accepted(run0[|run0| - 1]), Chunks(naming, all);
      && store.db.Valid() && store.db.writer == Idle
      && D.Continues(run0, actions0, store.db.run, store.db.actions)
      && (dryRun ==> store.db.State() == run0[|run0| - 1] && store.db.actions == actions0)
      && before <= Accepted(store.db.State()) <= before + Bodies(naming, parts)
      && (Bodies(naming, parts) <= before ==> S.Silent(store.db.actions, |actions0|))
      && S.Brings(run0[|run0| - 1], store.db.State(), Bodies(naming, parts))
    }

    lemma TracksBounds(all: seq<SourceEvent>, run0: seq<Sys>, actions0: seq<Action>, rest: seq<seq<SourceEvent>>)
      requires run0 != [] && Tracks(all, run0, actions0) && Chunks(naming, all) == flushed + rest
      ensures Bounded(all, run0, actions0)
      ensures batches == |flushed|
      ensures !dryRun ==> Progress(Accepted(run0[|run0| - 1]), store.db.State(), naming, flushed)
      ensures Bodies(naming, Chunks(naming, all)) <= Accepted(run0[|run0| - 1]) && !dryRun ==> replayed == batches
    {
      hide IsRun, D.Continues, BodyOf, Chunks, S.Silent;
      assert forall c | c in flushed :: c in flushed + rest;
    }

    lemma StoppedBounds(all: seq<SourceEvent>, run0: seq<Sys>, actions0: seq<Action>)
      requires run0 != [] && Stopped(all, run0, actions0)
      ensures Bounded(all, run0, actions0) && !dryRun
      ensures Bodies(naming, Chunks(naming, all)) <= Accepted(run0[|run0| - 1]) ==> !store.db.reliable
      ensures MustStop(|all|, store.db.State(), Chunks(naming, all))
    {
      hide IsRun, Chunks, Bodies, S.Silent;
    }

    lemma BoundedMeans(all: seq<SourceEvent>, run0: seq<Sys>, actions0: seq<Action>)
      requires run0 != [] && Bounded(all, run0, actions0)
      ensures store.db.Valid() && store.db.writer == Idle
      ensures D.Continues(run0, actions0, store.db.run, store.db.actions)
      ensures dryRun ==> store.db.State() == run0[|run0| - 1] && store.db.actions == actions0
      ensures Accepted(run0[|run0| - 1]) <= Accepted(store.db.State())
      ensures Accepted(store.db.State()) <= Accepted(run0[|run0| - 1]) + Bodies(naming, Chunks(naming, all))
      ensures Bodies(naming, Chunks(naming, all)) <= Accepted(run0[|run0| - 1]) ==> S.Silent(store.db.actions, |actions0|)
      ensures S.Brings(run0[|run0| - 1], store.db.State(), Bodies(naming, Chunks(naming, all)))
    {
      hide IsRun, D.Continues, Chunks, Bodies, S.Silent, Accepted;
    }

    /** One decoded event: flush if due, refuse a closed key, collect. */
    method ConsumeEvent(
      event: SourceEvent, line: nat, ghost all: seq<SourceEvent>, ghost run0: seq<Sys>, ghost actions0: seq<Action>)
      returns (ok: bool)
      requires |run0| == |actions0| + 1 && Tracks(all, run0, actions0) && Sound(naming)
      requires (forall e | e in all :: ValidEvent(e)) && line < |all| && event == all[line]
      requires HasRead(naming, all, line, current, currentKey, closedKeys, flushed)
      modifies this, store.db
      ensures ok ==> && Tracks(all, run0, actions0) && events == old(events) + 1
                     && HasRead(naming, all, line + 1, current, currentKey, closedKeys, flushed)
      ensures !ok ==> Bounded(all, run0, actions0)
      ensures !ok ==> || !Contiguous(naming, all)
                      || (&& !dryRun && MustStop(|all|, store.db.State(), Chunks(naming, all))
                          && (Bodies(naming, Chunks(naming, all)) <= Accepted(run0[|run0| - 1]) ==> !store.db.reliable))
    {
      hide *;
      HasReadFacts(naming, all, line, current, currentKey, closedKeys, flushed);
      var key := ImportKey(naming, event);
      ghost var current0, currentKey0, closedKeys0, flushed0 := current, currentKey, closedKeys, flushed;
      var sent := FlushIfDue(line, key, all, run0, actions0);
      if !sent {
        StoppedBounds(all, run0, actions0);
        return false;
      }
      if key in closedKeys {
        ClosedKeyIsSplit(naming, all, line, current0, currentKey0, closedKeys0, closedKeys, flushed0);
        TracksBounds(all, run0, actions0, if flushed == flushed0 then Chunks(naming, current0 + all[line..]) else Chunks(naming, all[line..]));
        return false;
      }
      ReadsNext(naming, all, line, current0, currentKey0, closedKeys0, flushed0, current, closedKeys, flushed);
      currentKey := key;
      current := current + [event];
      events := events + 1;
      ok := true;
    }

    /**
     Nothing is in the way of the import of these lines: distinct records, no row
     of another body in their place at the start, no request that covers one of
     their batches at the end, a reliable server, nobody who cancels.
     */
    ghost predicate IsUnhindered(lines: seq<Option<SourceEvent>>, s: Sys, s': Sys)
    {
      var parts := Chunks(naming, Events(lines));
      && Undisturbed(|lines|) && store.db.reliable && DistinctRecords(Events(lines))
      && AllFree(s, naming, parts) && !AnySuppressed(s', naming, parts)
    }

    /** A line that stops the import by itself. */
    lemma IsDisturbed(lines: seq<Option<SourceEvent>>, i: nat)
      requires i < |lines| && (cancelled(i) || lines[i].None?)
      ensures lines[i] in lines
      ensures lines[i].Some? ==> forall s, s' :: !IsUnhindered(lines, s, s')
    {
    }

    /** The store cannot have stopped it. */
    lemma NothingStopsIt(lines: seq<Option<SourceEvent>>, s: Sys)
      requires store.db.Valid() && Sound(naming) && (forall l | l in lines :: l.Some?)
      requires forall e | e in Events(lines) :: ValidEvent(e)
      requires S.Brings(s, store.db.State(), Bodies(naming, Chunks(naming, Events(lines))))
      requires MustStop(|Events(lines)|, store.db.State(), Chunks(naming, Events(lines)))
      ensures !IsUnhindered(lines, s, store.db.State())
    {
      hide Sound, IsRun, Events, Chunks, Bodies, AllFree, AnySuppressed, S.Brings, DistinctRecords, LedgerOk, RegistryOk;
      EventsPrefix(lines, |lines|);
      DatabaseIsConsistent(store.db.run, store.db.actions);
      if IsUnhindered(lines, s, store.db.State()) {
        FreeStays(s, store.db.State(), naming, Events(lines));
      }
    }

    /** Nothing is in the way of a later attempt either. */
    lemma UnhinderedLater(lines: seq<Option<SourceEvent>>, s: Sys, s1: Sys, s2: Sys, s': Sys)
      requires Sound(naming) && forall e | e in Events(lines) :: ValidEvent(e)
      requires IsUnhindered(lines, s, s')
      requires S.Brings(s, s1, Bodies(naming, Chunks(naming, Events(lines))))
      requires LedgerOk(s1.ledger) && RegistryOk(s1.registry, s1.ledger)
      requires AnySuppressed(s2, naming, Chunks(naming, Events(lines))) ==> AnySuppressed(s', naming, Chunks(naming, Events(lines)))
      ensures IsUnhindered(lines, s1, s2) && NothingDeleted(s', naming, Chunks(naming, Events(lines)))
    {
      hide Sound, Events, Chunks, Bodies, AllFree, S.Brings, DistinctRecords, LedgerOk, RegistryOk, BodyOf, DeletionRequested, Suppressed;
      FreeStays(s, s1, naming, Events(lines));
      forall c | c in Chunks(naming, Events(lines)) && c != []
        ensures !DeletionRequested(s'.history, BodyOf(naming, c).batch.scope)
      {
        Facts.UnsuppressedIsUntouched(s'.history, BodyOf(naming, c).batch.scope);
      }
    }

    /** Reads the input line by line and flushes a batch whenever the subject changes or 500 events are collected. */
    method Consume(lines: seq<Option<SourceEvent>>, readError: bool) returns (ok: bool)
      requires IsNew() && store.db.Valid() && store.db.writer == Idle && Sound(naming)
      requires forall e | e in Events(lines) :: ValidEvent(e)
      modifies this, store.db
      ensures store.db.Valid() && store.db.writer == Idle
      ensures D.Continues(old(store.db.run), old(store.db.actions), store.db.run, store.db.actions)
      ensures ok ==> Importable(naming, lines) && !readError
      ensures ok ==> flushed == Chunks(naming, Events(lines)) && batches == |flushed| && events == |Events(lines)|
      ensures dryRun ==> store.db.State() == old(store.db.State()) && store.db.actions == old(store.db.actions)
      ensures dryRun && Importable(naming, lines) && !readError && (forall i | 0 <= i < |lines| :: !cancelled(i)) ==> ok
      ensures Accepted(old(store.db.State())) <= Accepted(store.db.State())
      ensures Accepted(store.db.State()) <= Accepted(old(store.db.State())) + Bodies(naming, Chunks(naming, Events(lines)))
      ensures ok && !dryRun ==> Progress(Accepted(old(store.db.State())), store.db.State(), naming, Chunks(naming, Events(lines)))
      ensures Bodies(naming, Chunks(naming, Events(lines))) <= Accepted(old(store.db.State())) ==>
                && S.Silent(store.db.actions, |old(store.db.actions)|)
                && (ok && !dryRun ==> replayed == batches)
                && (Importable(naming, lines) && !readError && (forall i | 0 <= i < |lines| :: !cancelled(i)) && store.db.reliable ==> ok)
      ensures S.Brings(old(store.db.State()), store.db.State(), Bodies(naming, Chunks(naming, Events(lines))))
      ensures Importable(naming, lines) && !readError && IsUnhindered(lines, old(store.db.State()), store.db.State()) ==> ok
    {
      hide *;
      ghost var all, run0, actions0 := Events(lines), store.db.run, store.db.actions;
      NothingRead(naming, all);
      StartsTracking(all);
      ImportableExactly(lines);
      ok := false;
      for i := 0 to |lines|
        invariant forall j | 0 <= j < i :: lines[j].Some?
        invariant HasRead(naming, all, i, current, currentKey, closedKeys, flushed)
        invariant Tracks(all, run0, actions0) && events == i && !ok
      {
        HasReadFacts(naming, all, i, current, currentKey, closedKeys, flushed);
        EventsPrefix(lines, i);
        if cancelled(i) || lines[i].None? {
          TracksBounds(all, run0, actions0, Chunks(naming, current + all[i..]));
          BoundedMeans(all, run0, actions0);
          IsDisturbed(lines, i);
          return;
        }
        EventsPrefix(lines, i + 1);
        var consumed := ConsumeEvent(lines[i].value, i, all, run0, actions0);
        if !consumed {
          BoundedMeans(all, run0, actions0);
          if Importable(naming, lines) && !dryRun {
            NothingStopsIt(lines, run0[|run0| - 1]);
          }
          return;
        }
      }
      EventsPrefix(lines, |lines|);
      ok := Finish(lines, all, readError, run0, actions0);
      BoundedMeans(all, run0, actions0);
      if !ok && !readError {
        NothingStopsIt(lines, run0[|run0| - 1]);
      }
    }

    /** The end of the input: the last batch goes out. */
    method Finish(
      lines: seq<Option<SourceEvent>>, ghost all: seq<SourceEvent>, readError: bool, ghost run0: seq<Sys>, ghost actions0: seq<Action>)
      returns (ok: bool)
      requires |run0| == |actions0| + 1 && Tracks(all, run0, actions0) && Sound(naming) && |all| == |lines|
      requires forall e | e in all :: ValidEvent(e)
      requires HasRead(naming, all, |all|, current, currentKey, closedKeys, flushed)
      modifies this, store.db
      ensures Bounded(all, run0, actions0) && (ok ==> events == old(events))
      ensures ok ==> Contiguous(naming, all) && !readError && flushed == Chunks(naming, all) && batches == |flushed|
      ensures ok && !dryRun ==> Progress(Accepted(run0[|run0| - 1]), store.db.State(), naming, Chunks(naming, all))
      ensures Bodies(naming, Chunks(naming, all)) <= Accepted(run0[|run0| - 1]) ==>
                (ok && !dryRun ==> replayed == batches) && (!readError && store.db.reliable ==> ok)
      ensures dryRun && !readError ==> ok
      ensures !ok && !readError ==> MustStop(|all|, store.db.State(), Chunks(naming, all))
    {
      hide *;
      HasReadFacts(naming, all, |all|, current, currentKey, closedKeys, flushed);
      NothingLeft(naming, all);
      if readError {
        TracksBounds(all, run0, actions0, Chunks(naming, current + all[|all|..]));
        return false;
      }
      if current != [] {
        FlushIsDue(naming, all, |all|, current, currentKey, closedKeys, flushed);
        ok := FlushAt(|lines|, all, |all|, run0, actions0);
        if !ok {
          StoppedBounds(all, run0, actions0);
          return;
        }
      }
      TracksBounds(all, run0, actions0, []);
      ok := true;
    }
  }

  lemma DatabaseIsConsistent(run: seq<Sys>, actions: seq<Action>)
    requires |run| == |actions| + 1 && IsRun(run, actions)
    ensures LedgerOk(run[|run| - 1].ledger) && RegistryOk(run[|run| - 1].registry, run[|run| - 1].ledger)
  {
    hide IsRun, LedgerOk, RegistryOk, StreamsOk, HistoryOk, ErasureOk, WritersOk, DeleterOk;
    RunInv(run, actions, |run| - 1);
  }

  /** What the fields are after an event, from what they were before it and after the flush that was due. */
  lemma ReadsNext(
    naming: Naming, all: seq<SourceEvent>, i: nat,
    current: seq<SourceEvent>, currentKey: string, closedKeys: set<string>, flushed: seq<seq<SourceEvent>>,
    current': seq<SourceEvent>, closedKeys': set<string>, flushed': seq<seq<SourceEvent>>)
    requires HasRead(naming, all, i, current, currentKey, closedKeys, flushed) && i < |all|
    requires closedKeys' ==
               if currentKey != "" && ImportKey(naming, all[i]) != currentKey then closedKeys + {currentKey} else closedKeys
    requires if currentKey != "" && (ImportKey(naming, all[i]) != currentKey || |current| == MAX_BATCH_RECORDS) then
               current' == [] && flushed' == flushed + [current]
             else
               current' == current && flushed' == flushed
    requires ImportKey(naming, all[i]) !in closedKeys'
    ensures HasRead(naming, all, i + 1, current' + [all[i]], ImportKey(naming, all[i]), closedKeys', flushed')
  {
    hide *;
    HasReadFacts(naming, all, i, current, currentKey, closedKeys, flushed);
    if i == 0 || (ImportKey(naming, all[i]) == currentKey && |current| != MAX_BATCH_RECORDS) {
      Collects(naming, all, i, current, currentKey, closedKeys, flushed);
    } else {
      assert [] + [all[i]] == [all[i]];
      if ImportKey(naming, all[i]) == currentKey {
        StartsBatch(naming, all, i, current, currentKey, closedKeys, flushed);
      } else {
        StartsKey(naming, all, i, current, currentKey, closedKeys, flushed);
      }
    }
  }

  lemma NothingRead(naming: Naming, all: seq<SourceEvent>)
    ensures HasRead(naming, all, 0, [], "", {}, [])
  {
    assert [] + all[0..] == all;
    assert [] + Chunks(naming, all) == Chunks(naming, all);
  }

  lemma NothingLeft(naming: Naming, all: seq<SourceEvent>)
    ensures all[|all|..] == [] && Chunks(naming, all[|all|..]) == [] && Chunks(naming, []) == []
  {
  }

  lemma HasReadFacts(
    naming: Naming, all: seq<SourceEvent>, i: nat, current: seq<SourceEvent>, currentKey: string, closedKeys: set<string>,
    flushed: seq<seq<SourceEvent>>)
    requires HasRead(naming, all, i, current, currentKey, closedKeys, flushed)
    ensures i <= |all| && Chunks(naming, all) == flushed + Chunks(naming, current + all[i..])
    ensures current == [] <==> i == 0
    ensures currentKey == "" <==> i == 0
    ensures |current| <= MAX_BATCH_RECORDS
    ensures i == |all| ==> Contiguous(naming, all)
  {
    if i > 0 {
      KeyIsNotEmpty(naming, all[i - 1]);
    }
    assert i == |all| ==> all[..i] == all;
  }

  lemma ClosedKeyIsSplit(
    naming: Naming, all: seq<SourceEvent>, i: nat, current: seq<SourceEvent>, currentKey: string, closedKeys: set<string>,
    closedKeys': set<string>, flushed: seq<seq<SourceEvent>>)
    requires HasRead(naming, all, i, current, currentKey, closedKeys, flushed) && i < |all|
    requires var key := ImportKey(naming, all[i]);
             closedKeys' == (if currentKey != "" && key != currentKey then closedKeys + {currentKey} else closedKeys)
    requires ImportKey(naming, all[i]) in closedKeys'
    ensures !Contiguous(naming, all)
    ensures current != [] && (ImportKey(naming, all[i]) != currentKey || |current| == MAX_BATCH_RECORDS) ==>
              Chunks(naming, all) == flushed + [current] + Chunks(naming, all[i..])
    ensures Chunks(naming, all) == flushed + Chunks(naming, current + all[i..])
  {
    hide ImportKey;
    ClosedMeansSplit(naming, all, i, currentKey, closedKeys);
    if current != [] && (ImportKey(naming, all[i]) != currentKey || |current| == MAX_BATCH_RECORDS) {
      FlushIsDue(naming, all, i, current, currentKey, closedKeys, flushed);
    }
  }

  lemma WindowIsSound(all: seq<SourceEvent>, lo: nat, hi: nat)
    requires lo <= hi <= |all| && forall e | e in all :: ValidEvent(e)
    ensures forall e | e in all[lo..hi] :: ValidEvent(e)
  {
    assert forall a | 0 <= a < hi - lo :: all[lo..hi][a] == all[lo + a];
  }

  lemma BodiesOfPrefix(naming: Naming, parts: seq<seq<SourceEvent>>, chunk: seq<SourceEvent>, others: seq<seq<SourceEvent>>)
    requires chunk != []
    ensures BodyOf(naming, chunk) in Bodies(naming, parts + [chunk] + others)
    ensures Bodies(naming, parts + [chunk]) <= Bodies(naming, parts + [chunk] + others)
    ensures Bodies(naming, parts) <= Bodies(naming, parts + [chunk] + others)
  {
    var all := parts + [chunk] + others;
    assert chunk in all;
    assert forall c | c in parts + [chunk] :: c in all;
    assert forall c | c in parts :: c in all;
  }

  lemma ProgressBounds(before: set<Digest>, s: Sys, naming: Naming, parts: seq<seq<SourceEvent>>)
    requires Progress(before, s, naming, parts)
    ensures before <= Accepted(s) <= before + Bodies(naming, parts)
  {
  }

  lemma OneSubject(naming: Naming, chunk: seq<SourceEvent>)
    requires Sound(naming) && IsChunk(naming, chunk) && forall e | e in chunk :: ValidEvent(e)
    ensures forall e | e in chunk :: SameSubject(e, chunk[0])
  {
    forall e | e in chunk
      ensures SameSubject(e, chunk[0])
    {
      KeyIsSubject(naming, e, chunk[0]);
    }
  }

  lemma BodyHoldsBatch(naming: Naming, chunk: seq<SourceEvent>)
    requires chunk != []
    ensures BodyOf(naming, chunk).batch == BatchOf(naming, chunk)
  {
  }

  // ---------- Running an import again ----------

  ghost predicate NothingDeleted(s: Sys, naming: Naming, parts: seq<seq<SourceEvent>>)
  {
    forall c | c in parts && c != [] :: !DeletionRequested(s.history, BodyOf(naming, c).batch.scope)
  }

  /** An import that came through after one that did not leaves what a clean one leaves. */
  lemma ResumedIsClean(before: set<Digest>, between: set<Digest>, s: Sys, naming: Naming, parts: seq<seq<SourceEvent>>)
    requires before <= between <= before + Bodies(naming, parts)
    requires Progress(between, s, naming, parts) && NothingDeleted(s, naming, parts)
    ensures Accepted(s) == before + Bodies(naming, parts)
  {
    hide BodyOf;
    forall c | c in parts && c != []
      ensures BodyOf(naming, c) in Accepted(s)
    {
      assert Arrived(s, BodyOf(naming, c));
    }
  }

  lemma QuietIsSame(run0: seq<Sys>, actions0: seq<Action>, run: seq<Sys>, actions: seq<Action>)
    requires |run0| == |actions0| + 1 && |run| == |actions| + 1 && D.Continues(run0, actions0, run, actions) && IsRun(run, actions)
    requires forall m | |actions0| <= m < |actions| :: !actions[m].ByWriter?
    ensures Accepted(run[|run| - 1]) == Accepted(run0[|run0| - 1])
  {
    hide IsRun;
    D.OthersAcceptNothing(run, actions, |actions0|, |actions|);
    assert run[|actions0|] == run[..|run0|][|actions0|];
  }

  lemma OthersBring(
    s: Sys, run0: seq<Sys>, actions0: seq<Action>, run: seq<Sys>, actions: seq<Action>, bodies: set<Digest>)
    requires |run0| == |actions0| + 1 && |run| == |actions| + 1 && D.Continues(run0, actions0, run, actions) && IsRun(run, actions)
    requires forall m | |actions0| <= m < |actions| :: !actions[m].ByWriter?
    requires S.Brings(s, run0[|run0| - 1], bodies)
    ensures S.Brings(s, run[|run| - 1], bodies)
  {
    hide IsRun;
    S.OthersContinuation(run0, actions0, run, actions);
    assert S.AddsOnly(run0, run, {});
  }

  lemma SuppressionRemains(
    run0: seq<Sys>, actions0: seq<Action>, run: seq<Sys>, actions: seq<Action>, naming: Naming, parts: seq<seq<SourceEvent>>)
    requires |run0| == |actions0| + 1 && |run| == |actions| + 1 && D.Continues(run0, actions0, run, actions) && IsRun(run, actions)
    ensures AnySuppressed(run0[|run0| - 1], naming, parts) ==> AnySuppressed(run[|run| - 1], naming, parts)
  {
    hide IsRun, D.Continues, BodyOf, Suppressed;
    if AnySuppressed(run0[|run0| - 1], naming, parts) {
      var c :| c in parts && c != [] && Suppressed(run0[|run0| - 1].history, BodyOf(naming, c).batch.scope);
      S.SuppressedRemains(run0, actions0, run, actions, BodyOf(naming, c).batch.scope);
    }
  }

  /**
   An import is attempted, stopped anywhere, and attempted again.  The second
   attempt comes through if nothing was in the way of the first but the stop.
   If it comes through, the store holds what one undisturbed import would have
   left, and a third attempt writes nothing at all.
   */
  method ImportUntilDone(
    first: Importer, second: Importer, third: Importer, lines: seq<Option<SourceEvent>>, firstBreaks: bool)
    returns (done: bool, again: bool, ghost between: nat)
    requires first.IsNew() && second.IsNew() && third.IsNew() && first != second && second != third && first != third
    requires first.store == second.store == third.store && first.naming == second.naming == third.naming && Sound(first.naming)
    requires !first.dryRun && !second.dryRun && !third.dryRun
    requires first.store.db.Valid() && first.store.db.writer == Idle
    requires forall e | e in Events(lines) :: ValidEvent(e)
    modifies first, second, third, first.store.db
    ensures first.store.db.Valid() && between <= |first.store.db.actions|
    ensures var db, parts := first.store.db, Chunks(first.naming, Events(lines));
            done && NothingDeleted(db.State(), first.naming, parts) ==>
              && Accepted(db.State()) == Accepted(old(db.State())) + Bodies(first.naming, parts)
              && S.Silent(db.actions, between)
              && (again ==> third.replayed == third.batches == |parts|)
              && (db.reliable && (forall i | 0 <= i < |lines| :: !third.cancelled(i)) ==> again)
    ensures var db, parts := first.store.db, Chunks(first.naming, Events(lines));
            Importable(first.naming, lines) && second.IsUnhindered(lines, old(db.State()), db.State()) ==>
              done && NothingDeleted(db.State(), first.naming, parts)
  {
    hide IsRun, Init, Next, CounterFits, AtomicStep, Inv, D.Continues, Accepted, DeletionRequested, Sound, BodyOf, ImportKey,
         S.Silent, S.Brings, Chunks, Contiguous, Importable, Progress, Bodies, Events, NothingDeleted, AnySuppressed, AllFree;
    var db := first.store.db;
    ghost var parts, before := Chunks(first.naming, Events(lines)), Accepted(db.State());
    ghost var s0 := db.State();
    var ok := first.Consume(lines, firstBreaks);
    ghost var accepted1 := Accepted(db.State());
    ghost var run1, actions1 := db.run, db.actions;
    db.OthersRun();
    QuietIsSame(run1, actions1, db.run, db.actions);
    OthersBring(s0, run1, actions1, db.run, db.actions, Bodies(first.naming, parts));
    DatabaseIsConsistent(db.run, db.actions);
    ghost var s1 := db.State();
    done := second.Consume(lines, false);
    ghost var s2 := db.State();
    ghost var run2, actions2 := db.run, db.actions;
    between := |db.actions|;
    again := third.Consume(lines, false);
    ContinuesLater(run2, actions2, db.run, db.actions);
    SuppressionRemains(run2, actions2, db.run, db.actions, first.naming, parts);
    if Importable(first.naming, lines) && second.IsUnhindered(lines, s0, db.State()) {
      second.UnhinderedLater(lines, s0, s1, s2, db.State());
    }
    if done && NothingDeleted(db.State(), first.naming, parts) {
      RequestsRemain(run2, actions2, db.run, db.actions);
      NothingWasDeleted(s2, db.State(), first.naming, parts);
      ResumedIsClean(before, accepted1, s2, first.naming, parts);
    }
  }

  lemma ContinuesLater(run0: seq<Sys>, actions0: seq<Action>, run: seq<Sys>, actions: seq<Action>)
    requires D.Continues(run0, actions0, run, actions)
    ensures |actions0| <= |actions|
  {
  }

  lemma NothingWasDeleted(s: Sys, s': Sys, naming: Naming, parts: seq<seq<SourceEvent>>)
    requires RequestsKept(s, s') && NothingDeleted(s', naming, parts)
    ensures NothingDeleted(s, naming, parts)
  {
    hide BodyOf;
  }
}
