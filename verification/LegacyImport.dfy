/**
 The legacy importer: groups a sorted export into single-subject batches with
 deterministic identifiers, so that an import can be run again from the start.
 */
module LegacyImport {
  import opened Tables
  import opened Telemetry

  // ---------- Source events ----------

  datatype SourceEvent = SourceEvent(
    source: string, product: string, subject: string, recordId: string, occurredAt: nat, detail: string)

  const NUL: char := 0 as char

  predicate NoNul(s: string)
  {
    NUL !in s
  }

  /** What decoding guarantees: registered source and product, a safe record ID, a subject. */
  predicate ValidEvent(e: SourceEvent)
  {
    NoNul(e.source) && NoNul(e.product) && NoNul(e.recordId) && e.subject != ""
  }

  /** HMAC-SHA-256 under the import secret, UUIDv5 in the import namespace, the key and columns of a product. */
  datatype Naming = Naming(
    hmac: string -> string, uuid: string -> string, productKey: string -> string, payload: SourceEvent -> string)

  ghost predicate Injective(f: string -> string)
  {
    forall x, y :: f(x) == f(y) ==> x == y
  }

  /** Digests are taken to be collision-free; their hex and UUID forms hold no NUL. */
  ghost predicate Sound(naming: Naming)
  {
    && Injective(naming.hmac) && Injective(naming.uuid)
    && forall x :: NoNul(naming.hmac(x)) && NoNul(naming.uuid(x))
  }

  function Join2(a: string, b: string): string
  {
    a + [NUL] + b
  }

  function Join3(a: string, b: string, c: string): string
  {
    Join2(a, Join2(b, c))
  }

  function SubjectKey(naming: Naming, product: string, source: string, subject: string): string
  {
    naming.hmac(Join3(product, source, subject))
  }

  /** The grouping key of an event. */
  function ImportKey(naming: Naming, e: SourceEvent): string
  {
    Join3(e.source, e.product, SubjectKey(naming, e.product, e.source, e.subject))
  }

  function RecordId(naming: Naming, e: SourceEvent): string
  {
    naming.uuid(Join2("record", Join3(e.source, e.product, e.recordId)))
  }

  function BatchId(naming: Naming, first: SourceEvent, firstRecord: string, lastRecord: string): string
  {
    naming.uuid(Join2("batch", Join3(first.source, first.product,
      Join3(SubjectKey(naming, first.product, first.source, first.subject), firstRecord, lastRecord))))
  }

  lemma JoinIsInjective(a: string, b: string, a': string, b': string)
    requires NoNul(a) && NoNul(a') && Join2(a, b) == Join2(a', b')
    ensures a == a' && b == b'
  {
    var s, s' := Join2(a, b), Join2(a', b');
    assert s[|a|] == NUL && s'[|a'|] == NUL;
    assert forall i | 0 <= i < |a| :: s[i] == a[i];
    assert forall i | 0 <= i < |a'| :: s'[i] == a'[i];
    assert |a| == |a'|;
    assert a == s[..|a|] && a' == s'[..|a|];
    assert b == s[|a| + 1..] && b' == s'[|a| + 1..];
  }

  lemma Join3IsInjective(a: string, b: string, c: string, a': string, b': string, c': string)
    requires NoNul(a) && NoNul(a') && NoNul(b) && NoNul(b') && Join3(a, b, c) == Join3(a', b', c')
    ensures a == a' && b == b' && c == c'
  {
    JoinIsInjective(a, Join2(b, c), a', Join2(b', c'));
    JoinIsInjective(b, c, b', c');
  }

  predicate SameSubject(e: SourceEvent, f: SourceEvent)
  {
    e.source == f.source && e.product == f.product && e.subject == f.subject
  }

  /** Grouping by the key is grouping by source, product and subject. */
  lemma KeyIsSubject(naming: Naming, e: SourceEvent, f: SourceEvent)
    requires Sound(naming) && ValidEvent(e) && ValidEvent(f)
    ensures ImportKey(naming, e) == ImportKey(naming, f) <==> SameSubject(e, f)
  {
    if ImportKey(naming, e) == ImportKey(naming, f) {
      Join3IsInjective(e.source, e.product, SubjectKey(naming, e.product, e.source, e.subject),
                       f.source, f.product, SubjectKey(naming, f.product, f.source, f.subject));
      Join3IsInjective(e.product, e.source, e.subject, f.product, f.source, f.subject);
    }
  }

  lemma RecordIdIsInjective(naming: Naming, e: SourceEvent, f: SourceEvent)
    requires Sound(naming) && ValidEvent(e) && ValidEvent(f)
    ensures RecordId(naming, e) == RecordId(naming, f) <==> SameRecord(e, f)
  {
    if RecordId(naming, e) == RecordId(naming, f) {
      JoinIsInjective("record", Join3(e.source, e.product, e.recordId), "record", Join3(f.source, f.product, f.recordId));
      Join3IsInjective(e.source, e.product, e.recordId, f.source, f.product, f.recordId);
    }
  }

  // ---------- Batches ----------

  function RecordsOf(naming: Naming, chunk: seq<SourceEvent>): (records: seq<Record>)
    ensures |records| == |chunk|
  {
    seq(|chunk|, i requires 0 <= i < |chunk| => Record(RecordId(naming, chunk[i]), naming.payload(chunk[i])))
  }

  /** The latest time of occurrence. */
  function SentAt(chunk: seq<SourceEvent>): nat
    requires chunk != []
  {
    var last := chunk[|chunk| - 1].occurredAt;
    if |chunk| == 1 then last
    else
      var before := SentAt(chunk[..|chunk| - 1]);
      if last > before then last else before
  }

  function BatchOf(naming: Naming, chunk: seq<SourceEvent>): Batch
    requires chunk != []
  {
    var first := chunk[0];
    Batch(BatchId(naming, first, RecordId(naming, first), RecordId(naming, chunk[|chunk| - 1])),
          Scope(first.product, naming.productKey(first.product),
                SubjectKey(naming, first.product, first.source, first.subject), None, None),
          Product, RecordsOf(naming, chunk))
  }

  /** The body is determined by the batch and the time it claims to be sent at. */
  function BodyOf(naming: Naming, chunk: seq<SourceEvent>): Digest
    requires chunk != []
  {
    Digest(BatchOf(naming, chunk), SentAt(chunk))
  }

  /** Texts with a NUL between any two. */
  function Nul(texts: seq<string>): string
  {
    if texts == [] then "" else if |texts| == 1 then texts[0] else texts[0] + [NUL] + Nul(texts[1..])
  }

  lemma NulOfMore(text: string, texts: seq<string>)
    requires texts != []
    ensures Nul([text] + texts) == Join2(text, Nul(texts))
  {
    assert ([text] + texts)[1..] == texts;
  }

  /** The sent time of a batch is the latest time of occurrence in it. */
  lemma {:induction false} SentAtIsLatest(chunk: seq<SourceEvent>)
    requires chunk != []
    ensures (exists e :: e in chunk && e.occurredAt == SentAt(chunk)) && forall e | e in chunk :: e.occurredAt <= SentAt(chunk)
    decreases |chunk|
  {
    var front, last := chunk[..|chunk| - 1], chunk[|chunk| - 1];
    assert last in chunk && forall e | e in chunk :: e in front || e == last;
    if front != [] {
      SentAtIsLatest(front);
      var latest :| latest in front && latest.occurredAt == SentAt(front);
      assert SentAt(chunk) == if last.occurredAt > latest.occurredAt then last.occurredAt else latest.occurredAt;
      hide SentAt;
      assert latest in chunk;
    }
  }

  /** What a batch of the import is, column by column. */
  lemma ImportedBody(naming: Naming, chunk: seq<SourceEvent>)
    requires chunk != []
    ensures var batch, e, last := BodyOf(naming, chunk).batch, chunk[0], chunk[|chunk| - 1];
            var subject := naming.hmac(Nul([e.product, e.source, e.subject]));
            && batch.stream == Product
            && batch.scope == Scope(e.product, naming.productKey(e.product), subject, None, None)
            && |batch.records| == |chunk|
            && (forall i | 0 <= i < |chunk| ::
                  && batch.records[i].id == naming.uuid(Nul(["record", chunk[i].source, chunk[i].product, chunk[i].recordId]))
                  && batch.records[i].payload == naming.payload(chunk[i]))
            && batch.id == naming.uuid(Nul(["batch", e.source, e.product, subject, batch.records[0].id, batch.records[|chunk| - 1].id]))
    ensures (exists e :: e in chunk && e.occurredAt == BodyOf(naming, chunk).spelling)
         && forall e | e in chunk :: e.occurredAt <= BodyOf(naming, chunk).spelling
  {
    SentAtIsLatest(chunk);
    var e := chunk[0];
    var subject, records := SubjectKey(naming, e.product, e.source, e.subject), RecordsOf(naming, chunk);
    JoinsAreNul(e.product, e.source, e.subject, "", "", "");
    JoinsAreNul("batch", e.source, e.product, subject, records[0].id, records[|chunk| - 1].id);
    forall i | 0 <= i < |chunk|
      ensures records[i].id == naming.uuid(Nul(["record", chunk[i].source, chunk[i].product, chunk[i].recordId]))
    {
      JoinsAreNul("record", chunk[i].source, chunk[i].product, chunk[i].recordId, "", "");
    }
    hide Nul, Join2, Join3;
  }

  lemma JoinsAreNul(a: string, b: string, c: string, d: string, e: string, f: string)
    ensures Join3(a, b, c) == Nul([a, b, c])
    ensures Join2(a, Join3(b, c, d)) == Nul([a, b, c, d])
    ensures Join2(a, Join3(b, c, Join3(d, e, f))) == Nul([a, b, c, d, e, f])
  {
    NulOfThree(a, b, c);
    NulOfThree(b, c, d);
    NulOfThree(d, e, f);
    NulOfMore(a, [b, c, d]);
    NulOfMore(c, [d, e, f]);
    NulOfMore(b, [c, d, e, f]);
    NulOfMore(a, [b, c, d, e, f]);
    hide Nul, Join2;
    assert [a] + [b, c, d] == [a, b, c, d] && [c] + [d, e, f] == [c, d, e, f];
    assert [b] + [c, d, e, f] == [b, c, d, e, f] && [a] + [b, c, d, e, f] == [a, b, c, d, e, f];
  }

  lemma NulOfThree(a: string, b: string, c: string)
    ensures Join3(a, b, c) == Nul([a, b, c])
  {
    NulOfMore(b, [c]);
    NulOfMore(a, [b, c]);
    assert Nul([c]) == c;
    hide Nul, Join2;
    assert [b] + [c] == [b, c] && [a] + [b, c] == [a, b, c];
  }

  predicate SameRecord(e: SourceEvent, f: SourceEvent)
  {
    e.source == f.source && e.product == f.product && e.recordId == f.recordId
  }

  /** No record ID occurs twice in one source of one product. */
  ghost predicate DistinctRecords(events: seq<SourceEvent>)
  {
    forall i, j | 0 <= i < j < |events| :: !SameRecord(events[i], events[j])
  }

  // ---------- Grouping ----------

  /** How many leading events, at most `most`, have the key. */
  function Lead(naming: Naming, key: string, events: seq<SourceEvent>, most: nat): (n: nat)
    ensures n <= |events| && n <= most
    ensures forall i | 0 <= i < n :: ImportKey(naming, events[i]) == key
    ensures n < |events| && n < most ==> ImportKey(naming, events[n]) != key
  {
    if events == [] || most == 0 || ImportKey(naming, events[0]) != key then 0
    else 1 + Lead(naming, key, events[1..], most - 1)
  }

  /** The batches of an import. */
  function Chunks(naming: Naming, events: seq<SourceEvent>): seq<seq<SourceEvent>>
  {
    if events == [] then []
    else
      var n := Lead(naming, ImportKey(naming, events[0]), events, MAX_BATCH_RECORDS);
      if n == 0 then [] else [events[..n]] + Chunks(naming, events[n..])
  }

  function Concat(parts: seq<seq<SourceEvent>>): seq<SourceEvent>
  {
    if parts == [] then [] else parts[0] + Concat(parts[1..])
  }

  ghost predicate IsChunk(naming: Naming, chunk: seq<SourceEvent>)
  {
    && 1 <= |chunk| <= MAX_BATCH_RECORDS
    && forall e | e in chunk :: ImportKey(naming, e) == ImportKey(naming, chunk[0])
  }

  /** Batches that make up the input, one subject each, and none short that a neighbour continues. */
  ghost predicate IsPartition(naming: Naming, parts: seq<seq<SourceEvent>>, events: seq<SourceEvent>)
  {
    && Concat(parts) == events
    && (forall c | c in parts :: IsChunk(naming, c))
    && (forall i | 0 <= i < |parts| - 1 && Continues(naming, parts[i], parts[i + 1]) :: |parts[i]| == MAX_BATCH_RECORDS)
  }

  predicate Continues(naming: Naming, chunk: seq<SourceEvent>, next: seq<SourceEvent>)
  {
    chunk != [] && next != [] && ImportKey(naming, chunk[0]) == ImportKey(naming, next[0])
  }

  lemma {:induction false} LeadOf(naming: Naming, key: string, current: seq<SourceEvent>, rest: seq<SourceEvent>, most: nat)
    requires |current| <= most && forall e | e in current :: ImportKey(naming, e) == key
    requires rest == [] || |current| == most || ImportKey(naming, rest[0]) != key
    ensures Lead(naming, key, current + rest, most) == |current|
  {
    if current == [] {
      assert current + rest == rest;
    } else {
      assert (current + rest)[1..] == current[1..] + rest;
      LeadOf(naming, key, current[1..], rest, most - 1);
    }
  }

  /** When the key changes or the batch is full, the collected events are the next batch. */
  lemma NextChunk(naming: Naming, current: seq<SourceEvent>, rest: seq<SourceEvent>)
    requires IsChunk(naming, current)
    requires rest == [] || |current| == MAX_BATCH_RECORDS || ImportKey(naming, rest[0]) != ImportKey(naming, current[0])
    ensures Chunks(naming, current + rest) == [current] + Chunks(naming, rest)
  {
    LeadOf(naming, ImportKey(naming, current[0]), current, rest, MAX_BATCH_RECORDS);
    assert (current + rest)[..|current|] == current && (current + rest)[|current|..] == rest;
  }

  /** The batches are a partition, ... */
  lemma {:induction false} ChunksArePartition(naming: Naming, events: seq<SourceEvent>)
    ensures IsPartition(naming, Chunks(naming, events), events)
    decreases |events|
  {
    if events != [] {
      var n := Lead(naming, ImportKey(naming, events[0]), events, MAX_BATCH_RECORDS);
      var first, rest := events[..n], events[n..];
      ChunksArePartition(naming, rest);
      var parts := Chunks(naming, rest);
      assert Chunks(naming, events) == [first] + parts;
      assert ([first] + parts)[1..] == parts;
      assert first + rest == events;
      if parts != [] {
        assert rest != [] && parts[0][0] == rest[0] by {
          assert Concat(parts)[0] == parts[0][0];
        }
      }
    }
  }

  lemma TailIsPartition(naming: Naming, parts: seq<seq<SourceEvent>>, events: seq<SourceEvent>)
    requires IsPartition(naming, parts, events) && parts != []
    ensures IsPartition(naming, parts[1..], Concat(parts[1..]))
    ensures |parts| > 1 ==> parts[1] != [] && Concat(parts[1..]) != [] && Concat(parts[1..])[0] == parts[1][0]
  {
    var others := parts[1..];
    forall i | 0 <= i < |others| - 1 && Continues(naming, others[i], others[i + 1])
      ensures |others[i]| == MAX_BATCH_RECORDS
    {
      assert others[i] == parts[i + 1] && others[i + 1] == parts[i + 1 + 1];
    }
    if others != [] {
      assert IsChunk(naming, others[0]);
    }
  }

  /** ... and the only one there is. */
  lemma {:induction false} PartitionIsUnique(naming: Naming, parts: seq<seq<SourceEvent>>, events: seq<SourceEvent>)
    requires IsPartition(naming, parts, events)
    ensures parts == Chunks(naming, events)
    decreases |parts|
  {
    if parts != [] {
      TailIsPartition(naming, parts, events);
      PartitionIsUnique(naming, parts[1..], Concat(parts[1..]));
      assert IsChunk(naming, parts[0]);
      if |parts| > 1 {
        assert Continues(naming, parts[0], parts[0 + 1]) ==> |parts[0]| == MAX_BATCH_RECORDS;
      }
      NextChunk(naming, parts[0], Concat(parts[1..]));
      assert parts == [parts[0]] + parts[1..];
    }
  }

  // ---------- The batches of one import do not clash ----------

  /** A batch of the importer meets the store's requirements; its record IDs are distinct just when its events' are. */
  lemma ChunkIsValidBatch(naming: Naming, chunk: seq<SourceEvent>)
    requires Sound(naming) && IsChunk(naming, chunk)
    requires forall e | e in chunk :: ValidEvent(e)
    ensures ValidBatch(BatchOf(naming, chunk))
    ensures DistinctIds(BatchOf(naming, chunk)) <==> DistinctRecords(chunk)
  {
    var records := RecordsOf(naming, chunk);
    hide Sound, ValidEvent, RecordId, SameRecord, ImportKey;
    forall i, j | 0 <= i < j < |records|
      ensures records[i].id == records[j].id <==> SameRecord(chunk[i], chunk[j])
    {
      RecordIdIsInjective(naming, chunk[i], chunk[j]);
    }
  }

  lemma {:induction false} ChunkEvents(naming: Naming, events: seq<SourceEvent>, i: nat, e: SourceEvent)
    requires i < |Chunks(naming, events)| && e in Chunks(naming, events)[i]
    ensures e in events
    decreases |events|
  {
    var n := Lead(naming, ImportKey(naming, events[0]), events, MAX_BATCH_RECORDS);
    if i > 0 {
      ChunkEvents(naming, events[n..], i - 1, e);
    }
  }

  lemma {:induction false} ChunksAreApart(naming: Naming, events: seq<SourceEvent>, i: nat, j: nat, e: SourceEvent, f: SourceEvent)
    requires DistinctRecords(events) && i < j < |Chunks(naming, events)|
    requires e in Chunks(naming, events)[i] && f in Chunks(naming, events)[j]
    ensures !SameRecord(e, f)
    decreases |events|
  {
    var n := Lead(naming, ImportKey(naming, events[0]), events, MAX_BATCH_RECORDS);
    var rest := events[n..];
    FirstChunk(naming, events);
    hide Chunks, Lead, SameRecord;
    PartsAreApart(events, n);
    if i > 0 {
      ChunksAreApart(naming, rest, i - 1, j - 1, e, f);
    } else {
      ChunkEvents(naming, rest, j - 1, f);
    }
  }

  lemma FirstChunk(naming: Naming, events: seq<SourceEvent>)
    ensures events == [] ==> Chunks(naming, events) == []
    ensures events != [] ==>
              var n := Lead(naming, ImportKey(naming, events[0]), events, MAX_BATCH_RECORDS);
              n > 0 && Chunks(naming, events) == [events[..n]] + Chunks(naming, events[n..])
  {
  }

  lemma PartsAreApart(events: seq<SourceEvent>, n: nat)
    requires DistinctRecords(events) && n <= |events|
    ensures DistinctRecords(events[n..])
    ensures forall e, f | e in events[..n] && f in events[n..] :: !SameRecord(e, f)
  {
    hide SameRecord;
    var first, rest := events[..n], events[n..];
    assert forall a, b | 0 <= a < b < |rest| :: rest[a] == events[n + a] && rest[b] == events[n + b];
    forall e, f | e in first && f in rest
      ensures !SameRecord(e, f)
    {
      var a :| 0 <= a < |first| && first[a] == e;
      var b :| 0 <= b < |rest| && rest[b] == f;
      assert !SameRecord(events[a], events[n + b]);
    }
  }

  ghost predicate IdsApart(naming: Naming, c: seq<SourceEvent>, d: seq<SourceEvent>)
  {
    forall e, f | e in c && f in d :: RecordId(naming, e) != RecordId(naming, f)
  }

  lemma ChunkIdsAreApart(naming: Naming, events: seq<SourceEvent>, i: nat, j: nat)
    requires Sound(naming) && DistinctRecords(events) && (forall e | e in events :: ValidEvent(e))
    requires i < j < |Chunks(naming, events)|
    ensures IdsApart(naming, Chunks(naming, events)[i], Chunks(naming, events)[j])
  {
    hide Chunks, Sound, ValidEvent, RecordId, SameRecord, DistinctRecords;
    forall e, f | e in Chunks(naming, events)[i] && f in Chunks(naming, events)[j]
      ensures RecordId(naming, e) != RecordId(naming, f)
    {
      ChunkEvents(naming, events, i, e);
      ChunkEvents(naming, events, j, f);
      ChunksAreApart(naming, events, i, j, e, f);
      RecordIdIsInjective(naming, e, f);
    }
  }

  lemma NoSharedRecord(naming: Naming, c: seq<SourceEvent>, d: seq<SourceEvent>)
    requires c != [] && d != [] && IdsApart(naming, c, d)
    ensures forall r | r in RecordsOf(naming, d) :: !HasRecord(BatchOf(naming, c), r.id)
  {
    hide RecordId, BatchId;
    forall r, q | r in RecordsOf(naming, d) && q in RecordsOf(naming, c)
      ensures r.id != q.id
    {
      var b :| 0 <= b < |d| && RecordsOf(naming, d)[b] == r;
      var a :| 0 <= a < |c| && RecordsOf(naming, c)[a] == q;
      assert c[a] in c && d[b] in d;
    }
  }

  /** Two batches of one import share neither a batch ID nor a record ID, so they never clash in the store. */
  lemma BatchesAreApart(naming: Naming, events: seq<SourceEvent>, i: nat, j: nat)
    requires Sound(naming) && DistinctRecords(events) && (forall e | e in events :: ValidEvent(e))
    requires i < j < |Chunks(naming, events)|
    ensures var c, d := Chunks(naming, events)[i], Chunks(naming, events)[j];
            && c != [] && d != []
            && KeyOf(BatchOf(naming, c)) != KeyOf(BatchOf(naming, d))
            && forall r | r in RecordsOf(naming, d) :: !HasRecord(BatchOf(naming, c), r.id)
  {
    ChunksArePartition(naming, events);
    ChunkIdsAreApart(naming, events, i, j);
    var c, d := Chunks(naming, events)[i], Chunks(naming, events)[j];
    assert IsChunk(naming, c) && IsChunk(naming, d);
    hide Chunks, Sound, ValidEvent, RecordId, DistinctRecords, ImportKey, BatchId, HasRecord, RecordsOf, IsPartition;
    NoSharedRecord(naming, c, d);
    ChunkEvents(naming, events, i, c[0]);
    ChunkEvents(naming, events, j, d[0]);
    BatchIdNamesFirstRecord(naming, c, d);
    assert c[0] in c && d[0] in d;
  }

  lemma BatchIdNamesFirstRecord(naming: Naming, c: seq<SourceEvent>, d: seq<SourceEvent>)
    requires Sound(naming) && c != [] && d != [] && ValidEvent(c[0]) && ValidEvent(d[0])
    ensures BatchOf(naming, c).id == BatchOf(naming, d).id ==> RecordId(naming, c[0]) == RecordId(naming, d[0])
  {
    if BatchOf(naming, c).id == BatchOf(naming, d).id {
      var ck := Join3(SubjectKey(naming, c[0].product, c[0].source, c[0].subject), RecordId(naming, c[0]), RecordId(naming, c[|c| - 1]));
      var dk := Join3(SubjectKey(naming, d[0].product, d[0].source, d[0].subject), RecordId(naming, d[0]), RecordId(naming, d[|d| - 1]));
      hide Join3, Join2;
      SameBatchId(naming, c[0], d[0], ck, dk);
      Join3IsInjective(SubjectKey(naming, c[0].product, c[0].source, c[0].subject), RecordId(naming, c[0]), RecordId(naming, c[|c| - 1]),
                       SubjectKey(naming, d[0].product, d[0].source, d[0].subject), RecordId(naming, d[0]), RecordId(naming, d[|d| - 1]));
    }
  }

  lemma SameBatchId(naming: Naming, e: SourceEvent, f: SourceEvent, ck: string, dk: string)
    requires Sound(naming) && ValidEvent(e) && ValidEvent(f)
    requires naming.uuid(Join2("batch", Join3(e.source, e.product, ck))) == naming.uuid(Join2("batch", Join3(f.source, f.product, dk)))
    ensures ck == dk
  {
    JoinIsInjective("batch", Join3(e.source, e.product, ck), "batch", Join3(f.source, f.product, dk));
    Join3IsInjective(e.source, e.product, ck, f.source, f.product, dk);
  }
}
