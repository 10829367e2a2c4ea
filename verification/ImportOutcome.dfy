/**
 What can keep a batch of an import out of the store, and why batches of one
 import never keep each other out.
 */
module ImportOutcome {
  import opened Tables
  import opened Telemetry
  import opened Protocol
  import opened Invariant
  import opened Safety
  import S = Store
  import opened LegacyImport

  ghost function Bodies(naming: Naming, parts: seq<seq<SourceEvent>>): set<Digest>
  {
    set c | c in parts && c != [] :: BodyOf(naming, c)
  }

  /** The body's batch ID and record IDs are free, or taken by this very body. */
  ghost predicate FreeFor(s: Sys, sha: Digest)
  {
    && (forall l | l in s.ledger && l.key == KeyOf(sha.batch) :: l.data.sha == sha)
    && (forall g | g in s.registry :: !Clashes(g, sha))
  }

  ghost predicate AllFree(s: Sys, naming: Naming, parts: seq<seq<SourceEvent>>)
  {
    forall c | c in parts && c != [] :: FreeFor(s, BodyOf(naming, c))
  }

  /** Some stored request covers the scope of one of the batches. */
  ghost predicate AnySuppressed(s: Sys, naming: Naming, parts: seq<seq<SourceEvent>>)
  {
    exists c :: c in parts && c != [] && Suppressed(s.history, BodyOf(naming, c).batch.scope)
  }

  /** Two batches of an import of distinct records have neither a batch ID nor a record ID in common. */
  lemma BodiesAreApart(naming: Naming, events: seq<SourceEvent>, c: seq<SourceEvent>, d: seq<SourceEvent>)
    requires Sound(naming) && DistinctRecords(events) && (forall e | e in events :: ValidEvent(e))
    requires c in Chunks(naming, events) && d in Chunks(naming, events) && c != [] && d != [] && c != d
    ensures KeyOf(BatchOf(naming, c)) != KeyOf(BatchOf(naming, d))
    ensures forall id :: !(HasRecord(BatchOf(naming, c), id) && HasRecord(BatchOf(naming, d), id))
  {
    hide Sound, DistinctRecords, ValidEvent, Chunks, BatchId, RecordsOf;
    var parts := Chunks(naming, events);
    var i :| 0 <= i < |parts| && parts[i] == c;
    var j :| 0 <= j < |parts| && parts[j] == d;
    if i < j {
      BatchesAreApart(naming, events, i, j);
    } else {
      BatchesAreApart(naming, events, j, i);
    }
  }

  /** What an import of distinct records adds stands in the way of none of its own batches. */
  lemma FreeStays(s: Sys, s': Sys, naming: Naming, events: seq<SourceEvent>)
    requires Sound(naming) && DistinctRecords(events) && (forall e | e in events :: ValidEvent(e))
    requires AllFree(s, naming, Chunks(naming, events)) && S.Brings(s, s', Bodies(naming, Chunks(naming, events)))
    requires LedgerOk(s'.ledger) && RegistryOk(s'.registry, s'.ledger)
    ensures AllFree(s', naming, Chunks(naming, events))
  {
    hide Sound, DistinctRecords, ValidEvent, Chunks, BodyOf, Clashes, HasRecord, LedgerOk, RegistryOk;
    var parts := Chunks(naming, events);
    forall d | d in parts && d != []
      ensures FreeFor(s', BodyOf(naming, d))
    {
      forall l | l in s'.ledger && l.key == KeyOf(BodyOf(naming, d).batch)
        ensures l.data.sha == BodyOf(naming, d)
      {
        if l !in s.ledger {
          LedgerRowNames(s'.ledger, l);
          OwnOnly(naming, events, d, l.data.sha);
        }
      }
      forall g | g in s'.registry
        ensures !Clashes(g, BodyOf(naming, d))
      {
        if g !in s.registry {
          NewRowIsNoClash(s'.registry, s'.ledger, naming, events, d, g);
        }
      }
    }
  }

  lemma LedgerRowNames(ledger: seq<LedgerRow>, l: LedgerRow)
    requires LedgerOk(ledger) && l in ledger
    ensures l.key == KeyOf(l.data.sha.batch)
  {
    assert LedgerRowOk(l);
  }

  /** A body of the import with the batch ID of another, or one of its record IDs, is that other one. */
  lemma OwnOnly(naming: Naming, events: seq<SourceEvent>, d: seq<SourceEvent>, sha: Digest)
    requires Sound(naming) && DistinctRecords(events) && (forall e | e in events :: ValidEvent(e))
    requires d in Chunks(naming, events) && d != [] && sha in Bodies(naming, Chunks(naming, events))
    ensures KeyOf(sha.batch) == KeyOf(BodyOf(naming, d).batch) ==> sha == BodyOf(naming, d)
    ensures (exists id :: HasRecord(sha.batch, id) && HasRecord(BodyOf(naming, d).batch, id)) ==> sha == BodyOf(naming, d)
  {
    hide Sound, DistinctRecords, ValidEvent, Chunks, BatchOf, HasRecord;
    var c :| c in Chunks(naming, events) && c != [] && sha == BodyOf(naming, c);
    if c != d {
      BodiesAreApart(naming, events, c, d);
    }
  }

  lemma NewRowIsNoClash(
    registry: seq<RegistryRow>, ledger: seq<LedgerRow>, naming: Naming, events: seq<SourceEvent>, d: seq<SourceEvent>, g: RegistryRow)
    requires Sound(naming) && DistinctRecords(events) && (forall e | e in events :: ValidEvent(e))
    requires d in Chunks(naming, events) && d != []
    requires RegistryOk(registry, ledger) && g in registry && g.data.sha in Bodies(naming, Chunks(naming, events))
    ensures !Clashes(g, BodyOf(naming, d))
  {
    hide Sound, DistinctRecords, ValidEvent, Chunks, BodyOf, HasRecord, Bodies, ValidBatch;
    assert RegistryRowOk(g);
    OwnOnly(naming, events, d, g.data.sha);
  }

  lemma BringsMore(s: Sys, s1: Sys, s2: Sys, sha: Digest, bodies: set<Digest>)
    requires S.Brings(s, s1, bodies) && S.Brings(s1, s2, {sha}) && sha in bodies
    ensures S.Brings(s, s2, bodies)
  {
  }

  /** A refusal that is neither a cancellation nor a failure is a suppression, or another body's row. */
  lemma RefusalHasReason(s: Sys, sha: Digest, result: S.InsertResult)
    requires result.ErrIdempotencyConflict? || result.ErrDuplicateRecord? || result.ErrSuppressed?
    requires result.ErrIdempotencyConflict? ==> exists l :: l in s.ledger && l.key == KeyOf(sha.batch) && l.data.sha != sha
    requires result.ErrDuplicateRecord? ==> S.OwnedElsewhere(s.registry, s.ledger, sha)
    requires result.ErrSuppressed? ==> Suppressed(s.history, sha.batch.scope)
    ensures Suppressed(s.history, sha.batch.scope) || !FreeFor(s, sha)
  {
    hide Clashes, HasRecord, HasLedgerRow, Suppressed;
  }
}
