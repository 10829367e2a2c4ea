/**
 The V2 contract's parser: one stream fills one record list, and the record IDs
 of a batch are distinct.
 */
module Parse {
  import opened Tables
  import opened Telemetry
  import opened Patterns

  /** The five record lists of a validated batch. */
  datatype Validated = Validated(
    id: string, scope: Scope, stream: Stream,
    common: seq<Record>, technical: seq<Record>, plays: seq<Record>, product: seq<Record>, outcome: seq<Record>)
  {
    function RecordCount(): nat
    {
      |common| + |technical| + |plays| + |product| + |outcome|
    }

    function AllRecords(): seq<Record>
    {
      common + technical + plays + product + outcome
    }

    function ListOf(s: Stream): seq<Record>
    {
      match s
      case Common => common
      case Technical => technical
      case Plays => plays
      case Product => product
      case Outcomes => outcome
    }
  }

  function Headed(id: string, scope: Scope, stream: Stream): Validated
  {
    Validated(id, scope, stream, [], [], [], [], [])
  }

  /** The batch that the store takes the validated one for. */
  function BatchOf(v: Validated): Batch
  {
    Batch(v.id, v.scope, v.stream, v.AllRecords())
  }

  ghost predicate IdsDistinct(records: seq<Record>)
  {
    forall i, j | 0 <= i < j < |records| :: records[i].id != records[j].id
  }

  /** Adds the IDs of one list to those seen, unless one was seen before. */
  method CheckList(records: seq<Record>, seen: set<string>, ghost before: seq<Record>) returns (ok: bool, seen': set<string>)
    requires IdsDistinct(before) && forall id :: id in seen <==> exists r :: r in before && r.id == id
    ensures ok <==> IdsDistinct(before + records)
    ensures ok ==> forall id :: id in seen' <==> exists r :: r in before + records && r.id == id
  {
    seen' := seen;
    ok := true;
    assert before + records[..0] == before;
    for i := 0 to |records|
      invariant IdsDistinct(before + records[..i])
      invariant forall id :: id in seen' <==> exists r :: r in before + records[..i] && r.id == id
    {
      ghost var done := before + records[..i];
      assert before + records[..i + 1] == done + [records[i]];
      assert forall j | 0 <= j <= |done| :: (before + records)[j] == (done + [records[i]])[j];
      if records[i].id in seen' {
        ghost var r :| r in done && r.id == records[i].id;
        ghost var j :| 0 <= j < |done| && done[j] == r;
        assert (before + records)[j].id == (before + records)[|done|].id;
        return false, seen';
      }
      seen' := seen' + {records[i].id};
    }
    assert records[..|records|] == records;
  }

  /** Goes through the five lists with one set of seen IDs. */
  method ValidateUniqueRecordIds(v: Validated) returns (ok: bool)
    ensures ok <==> IdsDistinct(v.AllRecords())
  {
    hide IdsDistinct;
    NothingSeen();
    var seen: set<string>;
    ok, seen := CheckList(v.common, {}, []);
    assert [] + v.common == v.common;
    if ok {
      ok, seen := CheckList(v.technical, seen, v.common);
    }
    if ok {
      ok, seen := CheckList(v.plays, seen, v.common + v.technical);
    }
    if ok {
      ok, seen := CheckList(v.product, seen, v.common + v.technical + v.plays);
    }
    if ok {
      ok, seen := CheckList(v.outcome, seen, v.common + v.technical + v.plays + v.product);
    }
    PartsOfDistinct(v);
  }

  lemma NothingSeen()
    ensures IdsDistinct([])
  {
  }

  lemma PartsOfDistinct(v: Validated)
    ensures IdsDistinct(v.AllRecords()) ==>
              && IdsDistinct(v.common) && IdsDistinct(v.common + v.technical) && IdsDistinct(v.common + v.technical + v.plays)
              && IdsDistinct(v.common + v.technical + v.plays + v.product)
  {
    PrefixIsDistinct(v.common + v.technical + v.plays + v.product, v.outcome);
    PrefixIsDistinct(v.common + v.technical + v.plays, v.product);
    PrefixIsDistinct(v.common + v.technical, v.plays);
    PrefixIsDistinct(v.common, v.technical);
  }

  lemma PrefixIsDistinct(a: seq<Record>, b: seq<Record>)
    ensures IdsDistinct(a + b) ==> IdsDistinct(a)
  {
    assert forall i | 0 <= i < |a| :: (a + b)[i] == a[i];
  }

  // ---------- ParseBatch ----------

  datatype Header = Header(
    schemaVersion: int, id: string, product: string, subject: string, person: Option<string>, org: Option<string>,
    stream: Stream, sentAt: string)

  datatype Spec = Spec(opaqueKey: string, streams: set<Stream>)

  /** A record as decoded; `Checks` decide the rest of it. */
  datatype RawRecord = RawRecord(id: string, content: string)

  datatype Checks = Checks(
    lookup: string -> Option<Spec>, isUuid: string -> bool, parseTimestamp: string -> Option<int>,
    validateRecord: (Stream, RawRecord, int) -> Option<string>)

  const SCHEMA_VERSION := 2
  const DAY := 86_400_000
  const FIVE_MINUTES := 300_000

  function ScopeOf(header: Header, key: string): Scope
  {
    Scope(header.product, key, header.subject, header.person, header.org)
  }

  /** What an accepted header says: version 2, digests as keys, and a sent time from a week ago to five minutes ahead. */
  ghost predicate HeaderOk(header: Header, now: int, checks: Checks)
  {
    && header.schemaVersion == 2 && checks.isUuid(header.id)
    && (var spec := checks.lookup(header.product); spec.Some? && header.stream in spec.value.streams)
    && IsHexDigest(header.subject)
    && (header.person.Some? ==> IsHexDigest(header.person.value))
    && (header.org.Some? ==> IsHexDigest(header.org.value))
    && (var at := checks.parseTimestamp(header.sentAt); at.Some? && now - 604_800_000 <= at.value <= now + 300_000)
  }

  /** The scope of a batch: the product with its own key, and the keys of the header. */
  ghost predicate IsScopeOf(scope: Scope, header: Header, checks: Checks)
  {
    && checks.lookup(header.product).Some?
    && scope.product == header.product && scope.productKey == checks.lookup(header.product).value.opaqueKey
    && scope.subject == header.subject && scope.person == header.person && scope.org == header.org
  }

  lemma KeysAreDigests(header: Header)
    ensures IsOpaqueKey(header.subject) <==> IsHexDigest(header.subject)
    ensures header.person.Some? ==> (IsOpaqueKey(header.person.value) <==> IsHexDigest(header.person.value))
    ensures header.org.Some? ==> (IsOpaqueKey(header.org.value) <==> IsHexDigest(header.org.value))
  {
    OpaqueIsHexDigest(header.subject);
    if header.person.Some? {
      OpaqueIsHexDigest(header.person.value);
    }
    if header.org.Some? {
      OpaqueIsHexDigest(header.org.value);
    }
  }

  method ValidateHeader(header: Header, now: int, checks: Checks) returns (validated: Option<(Validated, int)>)
    ensures validated.Some? <==> HeaderOk(header, now, checks)
    ensures validated.Some? ==>
              && validated.value.0 == Headed(header.id, ScopeOf(header, checks.lookup(header.product).value.opaqueKey), header.stream)
              && Some(validated.value.1) == checks.parseTimestamp(header.sentAt)
              && IsScopeOf(validated.value.0.scope, header, checks)
  {
    KeysAreDigests(header);
    if header.schemaVersion != SCHEMA_VERSION || !checks.isUuid(header.id) {
      return None;
    }
    var spec := checks.lookup(header.product);
    if spec.None? || !IsOpaqueKey(header.subject) {
      return None;
    }
    if (header.person.Some? && !IsOpaqueKey(header.person.value)) || (header.org.Some? && !IsOpaqueKey(header.org.value)) {
      return None;
    }
    if header.stream !in spec.value.streams {
      return None;
    }
    var sentAt := checks.parseTimestamp(header.sentAt);
    if sentAt.None? || sentAt.value < now - 7 * DAY || sentAt.value > now + FIVE_MINUTES {
      return None;
    }
    validated := Some((Headed(header.id, ScopeOf(header, spec.value.opaqueKey), header.stream), sentAt.value));
  }

  /** The validated form of each record, in order. */
  ghost predicate AreValidated(raw: seq<RawRecord>, records: seq<Record>, stream: Stream, sentAt: int, checks: Checks)
  {
    && |records| == |raw|
    && forall i | 0 <= i < |raw| ::
         records[i].id == raw[i].id && checks.validateRecord(stream, raw[i], sentAt) == Some(records[i].payload)
  }

  /** The records of one stream, each validated, counted before. */
  method ValidateRecords(raw: seq<RawRecord>, stream: Stream, sentAt: int, checks: Checks) returns (records: Option<seq<Record>>)
    ensures records.Some? <==>
              && 1 <= |raw| <= MAX_BATCH_RECORDS
              && forall i | 0 <= i < |raw| :: checks.validateRecord(stream, raw[i], sentAt).Some?
    ensures records.Some? ==> AreValidated(raw, records.value, stream, sentAt, checks)
  {
    if |raw| < 1 || |raw| > MAX_BATCH_RECORDS {
      return None;
    }
    var parsed: seq<Record> := [];
    for i := 0 to |raw|
      invariant AreValidated(raw[..i], parsed, stream, sentAt, checks)
      invariant forall j | 0 <= j < i :: checks.validateRecord(stream, raw[j], sentAt).Some?
    {
      var payload := checks.validateRecord(stream, raw[i], sentAt);
      if payload.None? {
        return None;
      }
      parsed := parsed + [Record(raw[i].id, payload.value)];
    }
    assert raw[..|raw|] == raw;
    records := Some(parsed);
  }

  /** The list of the batch's stream. */
  function Fill(v: Validated, list: seq<Record>): (filled: Validated)
    requires v.common == v.technical == v.plays == v.product == v.outcome == []
    ensures filled.ListOf(v.stream) == list && forall s | s != v.stream :: filled.ListOf(s) == []
    ensures filled.id == v.id && filled.scope == v.scope && filled.stream == v.stream
  {
    match v.stream
    case Common => v.(common := list)
    case Technical => v.(technical := list)
    case Plays => v.(plays := list)
    case Product => v.(product := list)
    case Outcomes => v.(outcome := list)
  }

  /** The records, validated, are in the list of the stream, and the other four lists are empty. */
  ghost predicate FillsOnly(v: Validated, raw: seq<RawRecord>, stream: Stream, sentAt: int, checks: Checks)
  {
    match stream
    case Common => AreValidated(raw, v.common, stream, sentAt, checks) && v.technical == v.plays == v.product == v.outcome == []
    case Technical => AreValidated(raw, v.technical, stream, sentAt, checks) && v.common == v.plays == v.product == v.outcome == []
    case Plays => AreValidated(raw, v.plays, stream, sentAt, checks) && v.common == v.technical == v.product == v.outcome == []
    case Product => AreValidated(raw, v.product, stream, sentAt, checks) && v.common == v.technical == v.plays == v.outcome == []
    case Outcomes => AreValidated(raw, v.outcome, stream, sentAt, checks) && v.common == v.technical == v.plays == v.product == []
  }

  /** What the store is handed: ID, scope and stream of the header, and the validated records in order. */
  ghost predicate IsBatchOf(batch: Batch, raw: seq<RawRecord>, header: Header, checks: Checks)
  {
    && batch.id == header.id && batch.stream == header.stream && IsScopeOf(batch.scope, header, checks)
    && checks.parseTimestamp(header.sentAt).Some?
    && AreValidated(raw, batch.records, header.stream, checks.parseTimestamp(header.sentAt).value, checks)
  }

  /** Accepts a batch just when header, count and records are valid and the record IDs distinct. */
  method ParseBatch(header: Header, raw: seq<RawRecord>, now: int, checks: Checks) returns (parsed: Option<Validated>)
    ensures parsed.Some? ==>
              && HeaderOk(header, now, checks) && parsed.value.id == header.id && parsed.value.stream == header.stream
              && IsScopeOf(parsed.value.scope, header, checks)
              && FillsOnly(parsed.value, raw, header.stream, checks.parseTimestamp(header.sentAt).value, checks)
              && AreValidated(raw, parsed.value.ListOf(header.stream), header.stream, checks.parseTimestamp(header.sentAt).value, checks)
              && (forall s | s != header.stream :: parsed.value.ListOf(s) == [])
              && parsed.value.RecordCount() == |raw| && parsed.value.AllRecords() == parsed.value.ListOf(header.stream)
              && ValidBatch(BatchOf(parsed.value)) && DistinctIds(BatchOf(parsed.value))
              && IsBatchOf(BatchOf(parsed.value), raw, header, checks)
    ensures parsed.Some? <==>
              && HeaderOk(header, now, checks) && 1 <= |raw| <= 500
              && (forall i | 0 <= i < |raw| ::
                    checks.validateRecord(header.stream, raw[i], checks.parseTimestamp(header.sentAt).value).Some?)
              && (forall i, j | 0 <= i < j < |raw| :: raw[i].id != raw[j].id)
  {
    var validated := ValidateHeader(header, now, checks);
    if validated.None? {
      return None;
    }
    var (v, sentAt) := validated.value;
    var records := ValidateRecords(raw, header.stream, sentAt, checks);
    if records.None? {
      return None;
    }
    var list := records.value;
    v := Fill(v, list);
    OnlyList(v, list);
    assert FillsOnly(v, raw, header.stream, sentAt, checks);
    hide HeaderOk, FillsOnly, AreValidated, IsScopeOf, Validated.AllRecords, Validated.ListOf, Validated.RecordCount;
    var unique := ValidateUniqueRecordIds(v);
    if !unique {
      assert exists i, j :: 0 <= i < j < |raw| && raw[i].id == raw[j].id by {
        var i, j :| 0 <= i < j < |list| && list[i].id == list[j].id;
        assert raw[i].id == raw[j].id;
      }
      return None;
    }
    parsed := Some(v);
  }

  lemma OnlyList(v: Validated, list: seq<Record>)
    requires v.ListOf(v.stream) == list && forall s | s != v.stream :: v.ListOf(s) == []
    ensures v.AllRecords() == list && v.RecordCount() == |list|
  {
    assert v.common == v.ListOf(Common) && v.technical == v.ListOf(Technical) && v.plays == v.ListOf(Plays);
    assert v.product == v.ListOf(Product) && v.outcome == v.ListOf(Outcomes);
  }
}
