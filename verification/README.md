# A verified model of the telemetry collector

This project models the crash-tolerant ingest and privacy-deletion protocol of the LINKa metric service over
ClickHouse tables, and five smaller algorithms beside it: the legacy importer, the migration runner with its SQL
statement splitter, the strict JSON validator, the fundraising ledger and the product token format.

`dafny verify dfyconfig.toml` checks all of it.

## How the protocol is modelled

ClickHouse gives neither transactions nor unique constraints. A table is a sequence of physical rows with a sorting
key and a version in milliseconds (`Tables`). FINAL answers with a row of the greatest version of a key, a background
merge drops one row that another row of its key dominates. An `ALTER TABLE ... DELETE` is a mutation that the server keeps: it
covers the matching rows stored when it is submitted, the server removes them one at a time whenever it likes, also long
after the worker has given up on it, and an acknowledgement says no more than that none of the rows it covers is left.

`Protocol` is a state machine over the tables of `Telemetry`. Its steps are the SQL statements of one writer process
(V2 ingest and privacy requests under `v2Mu`, V1 ingest under `v1Mu`), of one worker process, and of merges, in any
interleaving. A statement is stored and acknowledged, stored with the acknowledgement lost, or not stored; a multi-row
send may store any part of its rows; a process may stop between any two statements; every clock reading is arbitrary.
The deployment documents require one active writer (docs/telemetry-v2.md:35) and one active worker
(docs/telemetry-v2.md:45), and no second one of either (docs/staging.md:24), and the model assumes that; the importer counts
as a writer. Every run keeps the number of claims of a request below
65536, because the attempt counter is a UInt16. That a table is clear when its deletion is recorded as done is no
assumption: it is proved from what mutations cover and from the suppression barrier (`WorkerSteps.FinishedIsClear`,
`MutationSteps`).

`Invariant`, `WriterSteps`, `OtherSteps`, `MutationSteps`, `WorkerSteps` and `Safety` prove what every statement keeps.
`Theorems` holds the promises about deletion, suppression, version order, retries and the ledger; `Exactly` and `Atomic`
show that the tables implement an atomic store of accepted bodies; `Views` is about the reporting views; `Reversal`
constructs the runs in which a completed batch looks reserved again and in which merges change a view.

`Database`, `Store`, `V1Store` and `Worker` are the Go methods themselves, statement by statement, over one object that
holds the tables. Each statement is recorded as a step of the protocol, so everything proved of runs holds of them.
Between two statements they call a method that stands for the rest of the system: its body is empty, and its callers
know nothing but its contract, which allows any run of the other parties. A server flag `reliable` makes statements
succeed; without it they may end in any way.

## The other parts

* `LegacyImport`, `ImportOutcome` and `Importer`: grouping and deterministic identifiers as functions, what can keep a batch
  of an import out, the importer object as a loop that uses `Store.InsertV2`, and imports that are broken off and repeated.
* `Splitter`, `SplitterLaws`, `Migrations`, `MigrationRunner`, `MigrationLaws`: the lexer loop against a recursive lexer,
  and runs of the migrations that break off anywhere.
* `Json`, `JsonStrict`: a token decoder with a state per open container, the recursive validator over it, and the grammar
  of RFC 8259 (sections 4 and 9) as a printer of trees. The decoder follows the documented behaviour of the token reader
  of Go's `encoding/json`; that library itself is not part of this model.
* `Fundraising`, `FundraisingStore`, `FundraisingParse`, `Amounts`, `Decimal`, `SetSums`: the reservation scheme without
  registry and suppression, its totals, and the contract's money rules.
* `Parse`, `Patterns`: the facts about a batch that the store relies on, and the patterns of keys, names and codes.
* `Tokens`: printing and verifying product tokens; times in nanoseconds, secrets as strings of one character a byte.

## Assumptions

* SHA-256 of a body determines the body; HMAC-SHA-256 and UUIDv5 are injective and print without a NUL, HMAC in 64
  hexadecimal digits; a base64 text decodes to what was encoded and holds no dot. They appear as parameters or as an injective constructor.
* What an INSERT that ended in an error has stored is stored by the time the next statement of the same process begins.
  Mutations may go on at any time.
* UUID syntax, timestamps and the product registry are parameters of the parsers.

## Promises that hold under a condition

* A completed batch looks reserved again with the next statement exactly when a submitted mutation of the ledger covers
  its only completion and its reservation is still stored (`Exactly.TurnsBackExactly`); over a run it answers as completed
  exactly until such a mutation removes it (`Exactly.CompletedUntilRemoved`), and for every body there is a run in which
  that happens (`Reversal.StatusTurnsBack`).
* A claim is newer than every row before it exactly as long as the request has fewer than 65535 claims
  (`Theorems.ClaimWinsExactly`); losing outcomes can bring any number of them about (`History.ClaimedSoOften`).
* The view filter differs from the gate on empty person or organisation keys, which parsing excludes
  (`Views.OneRelation`).
* Merges leave a reporting view alone exactly when its newest rows of one key show the same (`Views.SettledExactly`), which
  only a batch with a repeated record ID can spoil (`Views.DistinctIsSettled`); parsing excludes those, the importer does
  not, and every body that repeats an ID with another payload spoils its view in some run (`Reversal.RepeatedIdSpoilsView`).
  This failure belongs to the model, in which FINAL and merges may keep either of two rows of equal version. ClickHouse
  documents that the row inserted last stays; under that rule nothing in the background changes a view, whatever was
  ingested (`Views.LastViewsAreTransparent`), and both readings show the same exactly when the view is settled
  (`Views.ReadingsAgreeExactly`).
* A second attempt at an import comes through, for distinct records and a reliable server, if no row of another body is in
  the way at the start and no request covers one of its batches (`Importer.ImportUntilDone`). A batch of the import itself is
  never in the way (`ImportOutcome.FreeStays`).
* Drift is found before anything runs just when nothing earlier is pending (`MigrationLaws.DriftIsFoundFirst`,
  `MigrationLaws.DriftFoundLate`).
* The fundraising views also count stored events of batches that never completed (`FundraisingStore.UnfinishedIsCounted`).
  Each figure of the daily view is right exactly when no event that counts towards it is of such a batch
  (`Fundraising.DailyViewExactly`, `Fundraising.FinalIsCompletedExactly`).
* A token is read back as issued only if its lifetime is a whole number of seconds (`Tokens.RoundTrip`).

## Model

| member | source | states |
|---|---|---|
| `Theorems.ReferentialChain` | internal/clickhouse/store_v2.go:43-69 | in every state of every run, a stream row has a registry row of its product, record and batch, and that one has a ledger row of its product, batch and body |
| `Theorems.RowsRepeatBodies` | internal/clickhouse/store_v2.go:43-77 | in every state of every run, column by column: a ledger row has key, scope, stream and count of its body, a registry row the batch, stream and scope of a body with that record ID, a stream row the table, key, scope and batch of such a body and one of its records |
| `Safety.NextKeepsInv` | internal/clickhouse/store_v2.go:14-78 | every statement of the writer, V1 ingest, the worker and every merge keeps the protocol invariant, whether it is stored, lost or fails |
| `Safety.RunInv` | internal/clickhouse/store_privacy.go:175-228 | the invariant holds in every state of every run with crashes, lost acknowledgements, partial sends and an arbitrary clock |
| `WriterSteps.WriterKeepsInv` | internal/clickhouse/store_v2.go:14-78 | each statement issued under `v2Mu` keeps the invariant |
| `WorkerSteps.WorkerKeepsInv` | internal/clickhouse/store_privacy.go:132-258 | each statement of the worker process keeps the invariant, a mutation that is never acknowledged included |
| `OtherSteps.V1KeepsInv` | internal/clickhouse/store.go:78-125 | each statement of V1 ingest keeps the invariant |
| `OtherSteps.MergeKeepsInv` | migrations/005_v2_tables.sql:17-41 | dropping any dominated row of any table keeps the invariant |
| `MutationSteps.MutationKeepsInv` | internal/clickhouse/store_privacy.go:215-226 | every single row the server removes for any mutation ever submitted keeps the invariant, whatever the worker does meanwhile |
| `MutationSteps.RemovedByRequest` | internal/clickhouse/store_privacy.go:205-226 | whatever a mutation removes is of a scope or installation that a stored request asks to delete |
| `WorkerSteps.FinishedIsClear` | internal/clickhouse/store_privacy.go:221-227 | when the rows a mutation covers are gone and none came after them, its table is clear |
| `OtherSteps.StreamKeyDeterminesRow` | migrations/005_v2_tables.sql:65-67 | all physical stream rows of one product and record repeat records of one batch: same key, scope and batch, and the same payload unless the batch repeats the ID |
| `Safety.NextAdds` | internal/clickhouse/store_v2.go:17-41 | of scopes and installations somebody has suppressed, no statement adds a row or a further copy of one |
| `Safety.RunRemembers` | internal/clickhouse/store_privacy.go:260-276 | stored status and progress rows are only ever followed by more of them |
| `Theorems.SuppressionOnlyGrows` | internal/clickhouse/store_privacy.go:54-87 | once a request row is stored, every later gate query about a scope of its product with its subject, person or organisation finds a row |
| `Theorems.StaysSuppressed` | internal/clickhouse/store_privacy.go:260-271 | every later status row of a request keeps what it asks for, and all scopes it is about stay suppressed |
| `Theorems.SuppressionBarrier` | internal/clickhouse/store_v2.go:17-41 | once a request row is stored, no later statement of any call, started before or after, adds a ledger, registry or stream row of its product with its subject, person or organisation, a V1 row of its installation, or a further copy of a stored one |
| `Theorems.DeletionIsFinal` | internal/clickhouse/store_privacy.go:175-228 | when a deletion request is completed, no row with its subject, person or organisation is stored in the seven V2 tables, nor one of its installation in the two V1 tables, then or in any later state |
| `Theorems.DoneIsErased` | internal/clickhouse/store_privacy.go:192-228 | completed progress of all tables means no row the request is about is left in any of them at once |
| `Theorems.CompletedTableStaysClear` | internal/clickhouse/store_privacy.go:192-228 | a table whose progress is completed stays free of the request's rows however ingest goes on |
| `Theorems.StatusRowsAreOrdered` | internal/clickhouse/store_privacy.go:278-287 | each status row stored for a request is strictly newer than all earlier ones |
| `Theorems.StatusVersionsCount` | internal/clickhouse/store_privacy.go:278-287 | the version of a stored status row is the time of ingest plus four milliseconds for each attempt, of which the claim has the first, retry and failure the second, completion the third |
| `Theorems.RequestIsKept` | internal/clickhouse/store_privacy.go:260-271 | in every later state FINAL answers for a stored request with a row of the same digest, scope, action, request time and installation |
| `Theorems.ProgressRowsAreOrdered` | internal/clickhouse/store_privacy.go:247-258 | the same for the progress rows of each table |
| `Theorems.FinalIsLastStored` | internal/clickhouse/store_privacy.go:132-145 | a FINAL read of a request answers with the row stored last, and finds one just when the request exists |
| `Theorems.SettledIsAbsorbing` | internal/clickhouse/store_privacy.go:161-173 | a stored `completed` or `failed` is what every later FINAL read answers |
| `Theorems.SettledStays` | internal/clickhouse/store_privacy.go:161-173 | no status row ever follows a `completed` or `failed` one |
| `Theorems.WorkerCountIsStored` | internal/privacy/worker.go:60-88 | when the worker closes a request, the stored status is `processing` with the worker's own attempt count |
| `Theorems.RetryIsBounded` | internal/privacy/worker.go:60-88 | claims are at most `maxAttempts` plus the claims whose outcome row was lost; without losses the last allowed claim is settled or under way |
| `Theorems.PassesSettle` | internal/privacy/worker.go:60-88 | over any run a request goes through at most `maxAttempts` passes of claim and stored outcome, whatever happens between them, and the last allowed one leaves it completed or failed |
| `History.PassDecreases` | internal/clickhouse/store_privacy.go:161-173 | every such pass brings `maxAttempts` minus claims down by one and ends completed, in retry, or failed if the claims are used up |
| `History.ClaimsAreBounded` | internal/clickhouse/store_privacy.go:166-173 | the same bound for any well-formed history of status rows |
| `History.RetriesRunOut` | internal/clickhouse/store_privacy.go:166-173 | without lost outcomes, after `maxAttempts` claims no retry is left |
| `History.AttemptsAreClaims` | internal/clickhouse/store_privacy.go:150-158 | the attempt column counts the claims |
| `History.VersionsIncrease` | internal/clickhouse/store_privacy.go:278-287 | versions grow strictly along a well-formed history |
| `History.BackoffIsBounded` | internal/clickhouse/store_privacy.go:289-297 | each backoff is between 1 s and 128 s and not shorter than the one before |
| `History.DueFromStart` | internal/clickhouse/store_privacy.go:77-84 | a request is due from the moment it is stored |
| `History.DueAfterLease` | internal/clickhouse/store_privacy.go:147-158 | a claimed one is due again when five minutes are over |
| `History.DueAfterBackoff` | internal/clickhouse/store_privacy.go:166-173 | one in retry is due after its backoff, and a completed or failed one never |
| `History.ClaimIsNewestExactly` | internal/clickhouse/store_privacy.go:153-155 | the claim row is newer than all rows stored for the request exactly when these hold fewer than 65535 claims; the next one wraps the UInt16 counter |
| `History.ClaimedSoOften` | internal/clickhouse/store_privacy.go:148-158 | a request whose outcomes are all lost comes to any number of claims |
| `Theorems.RegistryIsFunctional` | internal/clickhouse/store_v2.go:97-137 | all physical registry rows of one product and record name one batch and one body |
| `Theorems.ConflictCheckNeedsNoFinal` | internal/clickhouse/store_v2.go:97-117 | the conflict query over all physical rows finds a conflict just when one over FINAL rows would |
| `Theorems.CompletionIsNewer` | internal/clickhouse/store_v2.go:70-76 | under any clock a completion is strictly newer than its reservation and wins under FINAL |
| `Theorems.LedgerStatusIsValid` | internal/clickhouse/store_v2.go:31-33 | no ledger row has a status other than reserved and completed |
| `Exactly.ExactlyOnce` | internal/clickhouse/store_v2.go:43-77 | each record ID of a completed batch in an undeleted scope is under FINAL in its stream's table and nowhere else in the product, and only with records of that batch |
| `Exactly.CarriesIsCopy` | internal/clickhouse/store_v2.go:189-211 | in a batch without repeated record IDs, a row that carries a record is a copy of that very record |
| `Exactly.BodyIsFixed` | internal/clickhouse/store_v2.go:20-27 | the body of a batch ID does not change from one state to the next |
| `Exactly.BodyIsFixedWhileStored` | internal/clickhouse/store_v2.go:20-27 | nor over any stretch of a run in which a row of the batch is stored |
| `Exactly.CompletionPersists` | internal/clickhouse/store_v2.go:70-76 | a completed ledger row leaves the table exactly when the server removes its only copy for a submitted mutation of the ledger that covers it |
| `Exactly.CompletedNeverTurnsBack` | internal/clickhouse/store_v2.go:28-30 | a batch once completed is what every later FINAL read answers, as long as nobody asks to delete its scope |
| `Exactly.CompletedUntilRemoved` | internal/clickhouse/store_v2.go:28-30 | in a run, FINAL answers a batch once completed with its completion exactly until a mutation of the ledger takes it away |
| `Exactly.TurnsBackExactly` | internal/clickhouse/store_privacy.go:215-226 | some next statement makes FINAL answer `reserved` for a completed batch exactly when a submitted mutation of the ledger covers its only completed row and its reservation is stored |
| `Exactly.RemovedIsSuppressed` | internal/clickhouse/store_privacy.go:215-226 | a completion that is taken away was asked to be deleted, and its scope is suppressed |
| `Theorems.ClaimWinsExactly` | internal/clickhouse/store_privacy.go:147-158 | in every state of every run, the claim row of an open request is newer than all rows ever stored for it, and FINAL over the table answers with it, exactly when fewer than 65535 claims are stored |
| `Reversal.RepeatedIdSpoilsView` | migrations/005_v2_tables.sql:65-67 | for every valid body that has a record ID twice with different payloads there is a run from the empty database that accepts it, after which merges lead to a state where its view shows something else |
| `Reversal.StatusTurnsBack` | internal/clickhouse/store_privacy.go:175-228 | for every valid body there is a run from the empty database in which FINAL answers with its completion and later with `reserved` |
| `Atomic.RefinesAtomicStore` | internal/clickhouse/store_v2.go:14-78 | every statement of every run is one event of an atomic store of bodies: accept a fresh, unsuppressed body whole, forget a scope, or nothing |
| `Atomic.NextRefines` | internal/clickhouse/store_v2.go:14-78 | the same for one statement from any state that satisfies the invariant |
| `Atomic.LookUpAnswersAtomically` | internal/clickhouse/store_v2.go:20-30 | for a body already accepted the look-up answers replay or idempotency conflict as the atomic store would |
| `Atomic.StoredIsAccepted` | internal/clickhouse/store_v2.go:28-41 | an answer of stored, replayed or suppressed is true of the accepted bodies and of the stored requests |
| `Atomic.AcceptedAreDisjoint` | internal/clickhouse/store_v2.go:97-117 | two accepted bodies share neither a batch ID nor a record ID within a product |
| `Views.OneRelation` | migrations/012_v2_datalens_multi_product_views.sql:24-42 | ingest gate, deletion condition and view filter agree on all stored scopes just when the request has no empty person or organisation key, and then each picks exactly the scopes of its product and product key with the same subject, the same person or the same organisation |
| `Views.ViewsAreTransparent` | migrations/012_v2_datalens_multi_product_views.sql:24-42 | no statement of the worker, no row a mutation removes and no merge changes what a settled view returns, and it stays settled |
| `Views.SettledExactly` | migrations/012_v2_datalens_multi_product_views.sql:24-42 | no sequence of merges changes what a view returns exactly when the newest rows of one key show the same |
| `Views.DistinctIsSettled` | migrations/012_v2_datalens_multi_product_views.sql:24-42 | views are settled unless a batch with a repeated record ID is stored |
| `Views.LastViewsAreTransparent` | migrations/012_v2_datalens_multi_product_views.sql:24-42 | where FINAL and merges keep the row inserted last among equal versions, no statement of the worker, no row a mutation removes and no merge changes what a view returns, for any stored batches |
| `Views.ReadingsAgreeExactly` | migrations/012_v2_datalens_multi_product_views.sql:24-42 | that view is the same as the one that shows every newest row exactly when the view is settled |
| `Views.SuppressedNeverReappears` | migrations/012_v2_datalens_multi_product_views.sql:24-42 | no reporting view shows a row with the subject, person or organisation of a stored request, then or later |
| `Views.AcceptedIsShown` | migrations/012_v2_datalens_multi_product_views.sql:24-42 | each record ID of a completed batch in an unsuppressed scope is shown by its view, with a record of that ID, and with that very record if the batch repeats no ID |
| `Views.ShownIsAccepted` | migrations/012_v2_datalens_multi_product_views.sql:24-42 | and no view shows one of its record IDs with anything but records of that batch |
| `Facts.GateIsDelete` | internal/clickhouse/store_v2.go:158-172 | the gate condition and the mutation condition select the same scopes |
| `Facts.ConcernsExactly` | internal/clickhouse/store_v2.go:158-172 | for keys that are not empty, gate and mutation pick exactly the scopes of the product and product key with the same subject, the same person or the same organisation |
| `Facts.SuppressedExactly` | internal/clickhouse/store_v2.go:158-172 | a scope is suppressed just when some stored row is of a request about its subject, person or organisation |
| `Facts.DeletionRequestedExactly` | internal/clickhouse/store_privacy.go:205-226 | its deletion is requested just when such a row is of a V2 request to delete |
| `Facts.ReadIsSuppressed` | internal/clickhouse/store_v2.go:158-172 | the suppression query finds a row just when some stored request covers the scope |
| `Tables.NewestExists` | migrations/005_v2_tables.sql:17-19 | every stored key has a newest row, which is what FINAL answers |
| `Database.SelectFinal` | internal/clickhouse/store_v2.go:140-156 | the scan answers with a newest row of the key, or none if the key is not stored |
| `Database.Send` | internal/clickhouse/store_v2.go:122-137 | a multi-row send stores some of its rows, all of them if acknowledged |
| `Database.Connection.Record` | internal/clickhouse/store_v2.go:14-78 | a statement extends the run of the protocol and is one event of the atomic store |
| `Store.Store.InsertV2` | internal/clickhouse/store_v2.go:14-78 | accepts the body whole if it is fresh or leaves the accepted bodies alone; adds ledger and registry rows of this body alone; each answer is true of the stored rows, a duplicate one of another body's registry and ledger rows; an accepted body is replayed and nothing is written; another accepted body of its batch ID makes a conflict; a batch with the subject, person or organisation of a request stored before is never written; the invalid-status branch is never taken; with a reliable server it never fails |
| `Store.Store.WriteBatch` | internal/clickhouse/store_v2.go:43-77 | from a reservation, held or made now, the body is accepted whole if it was fresh, and a failure accepts it or nothing |
| `Store.Store.RegisterRecords` | internal/clickhouse/store_v2.go:80-138 | on success every record ID has a registry row of this batch and no other owner; else a record ID is registered for another body that has a ledger row, or a statement failed |
| `Store.Store.BatchLedger` | internal/clickhouse/store_v2.go:140-156 | the FINAL ledger row settles every question about accepted bodies with this batch ID |
| `Store.Store.IsSuppressed` | internal/clickhouse/store_v2.go:158-172 | counts the covering active rows; the count is positive just when a stored request is about the subject, person or organisation of the batch |
| `Store.Store.InsertStream` | internal/clickhouse/store_v2.go:189-211 | all records of the batch have stream and registry rows if the send is acknowledged; no other row is added |
| `Store.Store.CompleteBatch` | internal/clickhouse/store_v2.go:70-76 | a stored completion accepts a fresh body, each record ID once under FINAL; one not stored changes nothing |
| `Store.FindClash` | internal/clickhouse/store_v2.go:80-117 | the scan returns a row of a record of the batch that belongs to another batch or body, or there is none |
| `Store.CountSuppressions` | internal/clickhouse/store_v2.go:158-172 | the count is positive just when an active FINAL row covers the scope |
| `Store.Store.CreateRequest` | internal/clickhouse/store_privacy.go:54-88 | a persisted request is new, its row repeats its digest, scope, action, request time and installation, is pending and due at once; it suppresses its scope and, if it deletes, forgets its bodies; a key already stored is known just when the digest is the stored one and conflicts otherwise, with its last stored status, and nothing is written |
| `Store.Store.CreatePrivacyRequest` | internal/clickhouse/store_privacy.go:54-88 | the same for a V2 request: what is persisted is the first and only row of its ID with the request's own columns, and a known ID is told from a conflict by the stored digest |
| `Store.Store.CreateLegacyPrivacyRequest` | internal/clickhouse/store_privacy.go:19-52 | the same for a V1 request, stored as a deletion for LINKa Plays with its installation; it also suppresses the installation for V1 ingest and its digest as a V2 subject, and forgets no V2 body |
| `Store.SendTwice` | internal/clickhouse/store_privacy.go:54-88 | a request that was stored or known is, when its key is sent again at any later time, known with the same digest and a conflict with another one |
| `Atomic.AcceptedIsOnce` | internal/clickhouse/store_v2.go:43-77 | each record ID of an accepted body is there once under FINAL |
| `V1Store.V1Store.Insert` | internal/clickhouse/store.go:78-100 | an accepted V1 batch has a row with ID, installation and payload for each summary, a row no older than the one sent for each event, and no suppressed installation; nothing but rows of its items is added; a rejected one mentions a suppressed installation and adds nothing |
| `V1Store.V1Store.BatchSuppressed` | internal/clickhouse/store.go:102-125 | rejects just when the query finds a suppressed installation of the batch |
| `V1Store.CollectInstallations` | internal/clickhouse/store.go:103-116 | collects exactly the installations that events and summaries mention |
| `V1Store.EventsStay` | internal/clickhouse/store.go:88-98 | between the two sends no worker, merge or V2 writer takes the last row of an event that is as new as the one sent |
| `Worker.PrivacyStore.PendingPrivacyRequests` | internal/clickhouse/store_privacy.go:90-130 | lists requests that are new or in retry and available, or claimed with a lease that is over, and no others, in the order they were requested, no key twice, each as stored; one left out was not requested before any listed, and only when the limit is reached |
| `Worker.SelectDue` | internal/clickhouse/store_privacy.go:91-99 | the scan over FINAL rows that are due, sorted by `requested_at` and cut at `limit` |
| `Worker.DueIsWaiting` | internal/clickhouse/store_privacy.go:95-96 | the condition of list and claim, status by status |
| `Worker.PrivacyStore.ClaimPrivacyRequest` | internal/clickhouse/store_privacy.go:132-159 | claims a request just when its last row is new or in retry and available by the worker's clock, or claimed with a lease that is over; the row appended has the next attempt and a lease of five minutes from that time; other requests' rows stay |
| `Worker.PrivacyStore.WriteClaim` | internal/clickhouse/store_privacy.go:154-158 | the claim row is stored with the next attempt and a lease, and the worker goes on only if acknowledged |
| `Worker.PrivacyStore.WriteOutcome` | internal/clickhouse/store_privacy.go:161-173 | appends the completed, the failed or, while attempts are left, the retry row, available after its backoff, with its attempts and no lease; on an error that row or nothing |
| `Worker.RetryComesBack` | internal/clickhouse/store_privacy.go:90-99 | a request put in retry is listed by any pass from its backoff on, unless the list is full of requests made no later, and by none before |
| `Worker.PrivacyStore.DeleteTelemetryRequest` | internal/clickhouse/store_privacy.go:175-190 | a success means no row with the subject, person or organisation of the request, or of its installation, is left in any of its tables at once; the loop stops at the first failure |
| `Worker.PrivacyStore.DeleteTelemetryTable` | internal/clickhouse/store_privacy.go:192-228 | skips a table recorded as completed, else marks, mutates and marks again; on success it and all earlier tables of the request are clear |
| `Worker.PrivacyStore.AlterDelete` | internal/clickhouse/store_privacy.go:221-226 | submits a mutation and waits while the server and everybody else go on; if it is acknowledged the table is clear of the request |
| `Worker.PrivacyStore.RemoveRows` | internal/clickhouse/store_privacy.go:221-226 | the server removes every row that is left of those a mutation covers |
| `Worker.Worker.RunOnce` | internal/privacy/worker.go:54-91 | every request that waits for a worker is listed, or left out for earlier ones at the limit, and no other is; every listed one has its turn: not due any more and unchanged, or claimed and its outcome stored, or broken by a failed statement; exactly the failed ones are reported, in order; requests not listed keep their rows; with a reliable server no turn is broken |
| `Worker.TurnDecreases` | internal/privacy/worker.go:60-88 | a turn that was carried out uses up one claim and leaves the request completed, in retry, or failed when `maxAttempts` is reached |
| `Worker.Worker.Process` | internal/privacy/worker.go:60-88 | one listed request is left alone if not due, else claimed, carried out, and the outcome of that very claim stored after it; an error leaves a part of that |
| `Worker.Worker.CarryOut` | internal/privacy/worker.go:70-77 | opt-out needs nothing more, deletion leaves no row the request is about, anything else fails |
| `Worker.CompletedIsErased` | internal/privacy/worker.go:85-88 | what is stored as completed and asks for deletion has nothing left in the database |
| `Worker.ClosedIsClear` | internal/clickhouse/store_privacy.go:183-189 | when the table loop is through, the first tables are still clear |
| `Worker.ClosedIsGone` | internal/clickhouse/store_privacy.go:183-189 | so no row with the subject, person or organisation of the request, or of its installation, is left |
| `Worker.PassedIsClear` | internal/clickhouse/store_privacy.go:183-189 | behind a table, the loop leaves it and all earlier ones clear |
| `Worker.OthersRunTouchesNone` | internal/clickhouse/store_privacy.go:143-158 | no other process stores a status row for an existing request |
| `LegacyImport.KeyIsSubject` | cmd/import-legacy/main.go:319-327 | two events have the same grouping key just when source, product and subject agree |
| `LegacyImport.RecordIdIsInjective` | cmd/import-legacy/main.go:296-296 | two events have the same record ID just when source, product and source record agree |
| `LegacyImport.ChunksArePartition` | cmd/import-legacy/main.go:176-190 | the batches concatenate to the input, hold one subject and at most 500 events each, and only the last of a run is short |
| `LegacyImport.PartitionIsUnique` | cmd/import-legacy/main.go:176-190 | there is only one such partition, so a second import builds the same batches |
| `LegacyImport.BatchesAreApart` | cmd/import-legacy/main.go:305-305 | two batches of one import of distinct records share no batch ID and no record ID |
| `LegacyImport.ChunkIsValidBatch` | cmd/import-legacy/main.go:277-317 | a batch meets the store's requirements; its record IDs are distinct just when its source records are |
| `LegacyImport.ImportedBody` | cmd/import-legacy/main.go:277-317 | a batch has the product stream, the product and key of its events, the HMAC of product, source and subject as subject, no person or organisation, a record for each event with its derived ID, a batch ID derived from first and last record, and the latest time as sent time |
| `LegacyImport.SentAtIsLatest` | cmd/import-legacy/main.go:286-293 | the sent time is one of the times of occurrence and none is later |
| `ImportOutcome.BodiesAreApart` | cmd/import-legacy/main.go:296-305 | different batches of one import of distinct records share neither a batch ID nor any record ID |
| `ImportOutcome.FreeStays` | cmd/import-legacy/main.go:245-275 | if no stored row is in the way of an import of distinct records, none is after any part of it was stored |
| `Importer.Importer.BuildBatch` | cmd/import-legacy/main.go:277-317 | builds a batch just from non-empty events of one subject, with the latest time as sent time |
| `Importer.Importer.Flush` | cmd/import-legacy/main.go:245-275 | stores the collected batch or leaves it collected; one already stored is counted as replayed; with a reliable server and nobody who cancels, what keeps it out is a covering request or another body's row |
| `Importer.Importer.Consume` | cmd/import-legacy/main.go:160-197 | succeeds only on decodable lines whose keys are contiguous; always on those in a dry run, and in a real one if the server is reliable, nobody cancels, the records are distinct, no stored row is in the way and no request covers a batch; flushes exactly the batches of the input; adds only their rows and bodies to the store, all of the bodies on success; writes nothing if all were there |
| `Importer.ClosedMeansSplit` | cmd/import-legacy/main.go:182-189 | a closed key that comes again shows that the keys are not contiguous |
| `Importer.ResumedIsClean` | cmd/import-legacy/main.go:252-256 | an import that came through after a broken one leaves the accepted bodies of one clean import |
| `Importer.ImportUntilDone` | cmd/import-legacy/main.go:160-197 | a broken import, a second one and a third: the second comes through if nothing but the break was in the way; if it comes through it leaves what a clean import would, and the third replays every batch and writes nothing |
| `Splitter.SplitStatements` | migrations/runner.go:125-204 | the loop with its four flags computes the recursive lexer's result |
| `Splitter.TrimSpace` | migrations/runner.go:134-134 | trims Unicode white space at both ends |
| `Splitter.SpacesExactly` | migrations/runner.go:134-134 | white space is the twenty-five runes of the Unicode property |
| `SplitterLaws.SplitUndoesJoin` | migrations/runner.go:125-204 | clean statements joined with a semicolon and a line break come back as they were |
| `SplitterLaws.ResultsAreStatements` | migrations/runner.go:125-204 | every statement of a result is trimmed, non-empty, quote-balanced and free of comments and bare semicolons |
| `SplitterLaws.SplitJoinSplit` | migrations/runner.go:125-204 | splitting the join of a result gives the result |
| `SplitterLaws.SplitFailsWhenOpen` | migrations/runner.go:199-201 | splitting fails just when the input ends inside a quote or a block comment |
| `SplitterLaws.LexThrough` | migrations/runner.go:141-198 | a clean text before a semicolon is passed on rune by rune in any quoting context |
| `SplitterLaws.LexKeepsSegments` | migrations/runner.go:141-198 | cutting comments and separators out never makes the rest lex differently |
| `SplitterLaws.QuotesProtect` | migrations/runner.go:161-180 | quoted text is kept with all semicolons and comment marks in it, doubled quotes and escaped runes included, up to its closing quote; without one the text is refused |
| `SplitterLaws.PlainRunes` | migrations/runner.go:181-197 | outside of quotes and comments a semicolon ends a statement and any other rune is kept |
| `SplitterLaws.LineCommentIsBlank` | migrations/runner.go:147-153 | a comment to the end of the line reads as one blank before the line break, whatever stands in it |
| `SplitterLaws.BlockCommentIsBlank` | migrations/runner.go:154-160 | a block comment reads as one blank up to its first closing mark, and without one the text is refused |
| `SplitterLaws.CommentsAreBlanks` | migrations/runner.go:147-189 | every text reads as the one with a blank in place of each comment |
| `Migrations.Load` | migrations/runner.go:39-78 | sorts the files by name, loads them in strictly increasing version order, and fails just on a bad name, a bad or empty text, or a repeated version |
| `Migrations.VersionsFollowNames` | migrations/runner.go:44-56 | names in sorted order have versions in order |
| `Migrations.VersionIsThreeDigits` | migrations/runner.go:44-56 | a file has a version just when its name begins with the three digits of a number from 1 to 999 and an underscore |
| `MigrationRunner.CollectApplied` | migrations/runner.go:92-105 | refuses just when the ledger has an unknown version or rows of one version that disagree, and says which; else maps each version to its last row |
| `MigrationRunner.Run` | migrations/runner.go:80-123 | executes exactly the plan of pending migrations up to the first drift, or breaks off at one step of it; unless a statement failed, ends in a mismatch just when the ledger is known and consistent and the last row of some version has another name or checksum than the migration; records a row with version, name and checksum just for a stored record; executes nothing when the ledger is refused |
| `MigrationRunner.ApplyPending` | migrations/runner.go:106-121 | the loop follows the plan and reports drift just when there is one |
| `MigrationRunner.Apply` | migrations/runner.go:113-120 | statements in order and then a row with the migration's version, name and checksum, or a break at one of them |
| `MigrationRunner.DriftsExactly` | migrations/runner.go:106-110 | a migration drifts just when the last ledger row of its version has another name or another checksum |
| `MigrationLaws.RunKeepsLog` | migrations/runner.go:113-120 | however a run ends, all statements of every recorded migration ran, acknowledged and in order, right before its record |
| `MigrationLaws.RunKeepsPrefix` | migrations/runner.go:106-121 | a run over a prefix ledger leaves a longer prefix, all of the binary's migrations if it comes through |
| `MigrationLaws.RollbackIsRefused` | migrations/runner.go:97-100 | a binary that is behind the ledger does not know a version in it |
| `MigrationLaws.RunMany` | migrations/runner.go:80-123 | after any number of runs of binaries that only append migrations, each broken off anywhere, the ledger is a prefix and every recorded migration ran before its record |
| `MigrationLaws.DriftIsFoundFirst` | migrations/runner.go:106-112 | drift is found before anything is executed just when nothing before it is pending |
| `MigrationLaws.DriftStopsPrefixRun` | migrations/runner.go:106-112 | over a prefix ledger a changed migration stops the run before any statement |
| `MigrationLaws.DriftFoundLate` | migrations/runner.go:106-112 | over another ledger statements run before the drift is found |
| `MigrationLaws.SecondRunIsIdle` | migrations/runner.go:80-123 | after a run that came through, the plan of the next one is empty |
| `MigrationLaws.CompleteRunRecords` | migrations/runner.go:113-120 | after a run that came through, every migration is recorded under its own name and checksum |
| `MigrationLaws.RunChanged` | migrations/runner.go:106-112 | after a run that came through, a binary in which a migration has another name or checksum is never done: it stops with a mismatch just when it accepts the ledger and no statement fails |
| `JsonStrict.Validate` | internal/jsonstrict/decode.go:37-50 | accepts exactly the texts of one JSON value with no repeated name in any object and at most `maxDepth` levels |
| `JsonStrict.ValidateValue` | internal/jsonstrict/decode.go:52-96 | consumes exactly one value with the separator due before it, or fails just when the parser does |
| `JsonStrict.ValidateItems` | internal/jsonstrict/decode.go:86-92 | the array loop consumes the items and the closing bracket just when the parser does |
| `JsonStrict.ValidateMembers` | internal/jsonstrict/decode.go:66-85 | the object loop consumes the members and the closing brace just when the parser does, names distinct |
| `JsonStrict.ExpectDelimiter` | internal/jsonstrict/decode.go:98-108 | succeeds just when the next token is the delimiter; at the end of a container that closes it |
| `JsonStrict.CheckObject` | internal/jsonstrict/decode.go:14-35 | accepts exactly strict objects, and none when the depth limit is not positive |
| `JsonStrict.ParsedIsStrict` | internal/jsonstrict/decode.go:37-50 | a text has at most one strict value, and has one just when the parser consumes it all |
| `Json.ParseIsSound` | internal/jsonstrict/decode.go:52-96 | what the parser returns renders back to the symbols it consumed, with unique names and bounded height |
| `Json.ParseIsComplete` | internal/jsonstrict/decode.go:52-96 | the parser reads every rendering of a strict value back, whatever follows |
| `FundraisingStore.FundraisingStore.InsertFundraising` | internal/clickhouse/store_fundraising.go:17-63 | completes the body once and whole or not at all; a completed one is replayed, another body of its batch ID conflicts; every batch ID stored before keeps its body, completed or not, and completed ones stay; under merges, failures and any clock the ledger stays consistent |
| `FundraisingStore.FundraisingStore.WriteBatch` | internal/clickhouse/store_fundraising.go:45-62 | from a reservation, held or made now, the body is completed with all its events stored, or the statement failed; every stored batch ID keeps its body |
| `FundraisingStore.CompletionKeeps` | internal/clickhouse/store_fundraising.go:55-61 | a later completion row keeps the ledger consistent and adds one completed body |
| `Fundraising.LedgerRepeatsBodies` | internal/clickhouse/store_fundraising.go:45-61 | every ledger row has the ID and the record count of the body it names |
| `FundraisingStore.LedgerMergeKeeps` | migrations/014_fundraising_events.sql:1-12 | a merge changes neither the completed bodies, nor the body of a stored batch ID, nor a reservation that is held |
| `Fundraising.CompletionWins` | internal/clickhouse/store_fundraising.go:21-40 | FINAL answers a batch ID with its one body, and with its completion if there is one |
| `Fundraising.FinalIsCompletedAndUnfinished` | migrations/014_fundraising_events.sql:14-30 | under FINAL every event of every completed batch is there once, and beside them only rows of unfinished batches |
| `Fundraising.TotalsAreConserved` | migrations/014_fundraising_events.sql:46-61 | any sum over FINAL rows is the sum over completed batches, each event once, plus what is stored of unfinished ones |
| `Fundraising.FinalIsCompletedExactly` | migrations/014_fundraising_events.sql:32-44 | FINAL shows the events of the completed batches and nothing else exactly when every stored row is of a completed batch |
| `Fundraising.TotalIsExactly` | migrations/014_fundraising_events.sql:46-61 | a total over FINAL is never below that of the completed batches, and equal to it exactly when no row that counts towards it is of a batch not completed |
| `Fundraising.DailyViewExactly` | migrations/014_fundraising_events.sql:46-61 | per group, payment count and gross amount are right exactly when every payment shown is of a completed batch, refund count and refunded amount likewise, and net exactly when the surplus of both sides is equal |
| `FundraisingParse.CountedAs` | migrations/014_fundraising_events.sql:46-61 | by the words of an accepted event: payments succeeded and recurring charges succeeded count as payments with their worth, recorded refunds as refunds with theirs, and nothing else counts |
| `FundraisingParse.GroupedBy` | migrations/014_fundraising_events.sql:46-61 | two accepted events are in one group of the daily view just when day, frequency, source, campaign and currency agree |
| `FundraisingParse.GroupSays` | migrations/014_fundraising_events.sql:46-61 | the group of an accepted event has its frequency, source, campaign and currency and the UTC day of its time |
| `FundraisingStore.UnfinishedIsCounted` | internal/clickhouse/store_fundraising.go:45-55 | reserving any batch in the empty store and storing its events leaves no batch completed, yet the daily view counts its payments |
| `Amounts.AmountPrintsBack` | internal/contract/fundraising/parse.go:15-15 | an accepted amount is worth 1 to 10^18 - 1 kopecks and is the text its worth prints as |
| `Amounts.AmountParsesBack` | internal/contract/fundraising/parse.go:15-15 | every worth in that range prints as an accepted amount that parses back to it |
| `Amounts.KopecksAreHundredths` | internal/contract/fundraising/parse.go:15-15 | the worth is a hundred times the number before the point plus the two-digit number behind it |
| `Decimal.DigitsHaveWeight` | internal/contract/fundraising/parse.go:15-15 | the ten digits count 0 to 9, each ten times as much as the next |
| `FundraisingParse.ValidateEvent` | internal/contract/fundraising/parse.go:79-118 | accepts just the events with a closed kind, frequency and source in the time range, money with money kinds only, and a failure code with failed charges only |
| `FundraisingParse.WireNames` | internal/contract/fundraising/parse.go:90-90 | each kind has exactly its name in the contract |
| `FundraisingParse.ParseRecords` | internal/contract/fundraising/parse.go:53-69 | accepts just 1 to 500 valid events with distinct IDs and keeps their order; the result meets the ledger's requirements |
| `FundraisingParse.ParseBatch` | internal/contract/fundraising/parse.go:19-70 | accepts just when every record has its campaign member, the header is valid and the records are |
| `FundraisingParse.AcceptedMoney` | internal/contract/fundraising/parse.go:102-109 | an accepted event carries an amount just when its kind is monetary, in the range, and its text can be had back |
| `Parse.ParseBatch` | internal/contract/v2/parse.go:27-128 | accepts just when header, count, records and the distinctness of record IDs are right; has the scope of the header with the product's own key; fills the list named after the stream and no other; the batch handed on has the header's ID, scope and stream and the validated records in order, meets the store's requirements and repeats no record ID |
| `Parse.ValidateUniqueRecordIds` | internal/contract/v2/parse.go:130-163 | succeeds just when no record ID occurs twice across the five lists |
| `Parse.ValidateHeader` | internal/contract/v2/parse.go:208-246 | accepts just version 2, a known product and stream, keys of 64 hexadecimal digits and a sent time from a week ago to five minutes ahead; the scope is the header's |
| `Patterns.OpaqueIsHexDigest` | internal/contract/v2/parse.go:19-19 | an opaque key is 64 small hexadecimal digits |
| `Patterns.NamesAreSafe` | internal/auth/service.go:29-29 | a key name has 1 to 32 small letters, digits and hyphens, a letter first; campaign codes may also have underscores |
| `Tokens.RoundTrip` | internal/auth/product.go:79-148 | for all claims a token may be issued for, a verifier holding the issuer's key as active or previous reads back product, subject, person and organisation asked for, the second of issue and the end of the lifetime, just when the lifetime is whole seconds, its clock is at most five minutes behind the issue, and the token has not expired |
| `Tokens.NewProductTokens` | internal/auth/product.go:41-62 | takes just a named active key, a previous one of another name if any, a subject secret of at least 32 bytes and a lifetime of up to 365 days |
| `Tokens.IssuesExactly` | internal/auth/product.go:125-147 | issues just for one of the seven products and opaque keys, with the product, subject, person and organisation asked for, from the second of issue on, for the lifetime |
| `Tokens.IssuedTokenReads` | internal/auth/product.go:135-147 | an issued token has nine parts: version, key name, product, subject, person or dash, organisation or dash, the two times in seconds, and a signature over the first eight |
| `Tokens.VerifiesExactly` | internal/auth/product.go:79-123 | a token is accepted as these claims just when its parts read so, the claims may be issued, it is signed with the key it names, it was issued at most five minutes ahead of the clock, and it has not expired |
| `Tokens.AnonymousSubjects` | internal/auth/product.go:64-71 | every installation gets a token of each known product, under a subject that is neither another installation's nor another product's |
| `Tokens.ParsesExactly` | internal/auth/product.go:108-115 | a time is read just from an optional sign and digits within 64 bits |
| `Tokens.VerifyReadsIssued` | internal/auth/product.go:79-123 | the verifier reads back the issued claims cut to whole seconds, within their window, and nothing outside it |
| `Tokens.ShortLivedIsRejected` | internal/auth/product.go:119-121 | a token with a lifetime under one second is never accepted |
| `Tokens.AcceptedIsSigned` | internal/auth/product.go:84-95 | whatever is accepted carries a signature of its first eight parts under a key the verifier knows |
| `Tokens.SplitUndoesJoin` | internal/auth/product.go:80-81 | splitting at dots undoes joining for parts without a dot |
| `Tokens.ParseUndoesFormat` | internal/auth/product.go:108-115 | every 64-bit integer is read back from its decimal text |
| `Tokens.OptionalRoundTrip` | internal/auth/product.go:174-189 | an absent or opaque key is read back from its part |

## Left out

- Store.Store.InsertV2: an INSERT that ClickHouse applies only after its client has given up and gone on is not modelled; one that lands after its scope was suppressed would break the suppression barrier. Mutations that go on late are modelled.
- Worker.Worker.RunOnce: asks for room for one more claim in the attempt counter of every request that is not settled, because a claim that wraps the counter is not the newest row (Theorems.ClaimWinsExactly); settled requests may have any number.
- Worker.Worker.Process: likewise for the request it is given.
- Worker.PrivacyStore.ClaimPrivacyRequest: likewise for the request it is given.
- Worker.PrivacyStore.WriteClaim: likewise for the request it is given.
- Views.ViewsAreTransparent: asks for a settled view, because it lets FINAL and merges keep either of two rows of equal version; Views.LastViewsAreTransparent needs no such premise.
- JsonStrict.CheckObject: the second, typed decoding with unknown fields refused is left out.
- Parse.ParseBatch: the checks of one record of each stream are a parameter.
- JsonStrict.Validate: reads lexical elements; string escapes, numbers and UTF-8 are settled before, an element that is none of JSON is one `Bad` symbol.
- Splitter.SplitStatements: input is a sequence of runes; bytes that are not UTF-8 are not modelled.
- Tokens.RoundTrip: HMAC and base64 are parameters with the stated assumptions.
- The five per-stream column lists: one generic stream row carries scope, batch, record and payload; `expires_at` and retention are left out.
- Lease, error and completion columns of deletion progress rows, which no statement reads.
- Rows from before the product key and scope columns existed (NULL keys), and TTL expiry.
- Two active writers or workers, which the deployment documents exclude.
- Decoding of import lines, UUID and timestamp syntax, product registry, V1 event properties: wide checks settled by reading one branch.
- HTTP handlers, routing, logging, configuration, key rings, JWKS cache, service tokens, disk alerts, shell and Terraform files.
- V1 views and the daily quality view, which apply no suppression filter.
