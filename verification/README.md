# SentinelAI: payment, audit and policy core, modelled in Dafny

This project models the parts of SentinelAI that carry its guarantees and
proves those guarantees for all inputs, all interleavings and all failures the
model admits. `dafny verify dfyconfig.toml` checks everything.

## What is modelled

* **Idempotency layer** (`IdempotencyProtocol.dfy`, `IdempotencyMiddleware.dfy`).
  One idempotency key: a Redis lock without an owner token and a
  STARTED/COMPLETED record, used by any number of concurrent requests. One
  event is one Redis call, an answer of the endpoint, an exception (before or
  after the call took effect), a crash, or the expiry of the lock. The class
  `Middleware` holds the same state in fields that are updated in place; its
  `Dispatch` is the polling loop and `try`/`finally` of the source, with other
  requests acting at every await.
* **Transfers, audit ledger and outbox relay** (`PaymentTables.dfy`,
  `PaymentProtocol.dfy`, `PaymentGuarantees.dfy`, `PaymentProgress.dfy`,
  `PaymentStore.dfy`, `OutboxRelay.dfy`, `AuditLedger.dfy`). Any number of
  connections on one SQLite database, one SQL statement per event, one writer
  lock, a private copy of the tables per open transaction, busy errors, failed
  commits, exceptions and crashes anywhere. `PaymentStore` is the same code as
  imperative statements on tables that are assigned, `OutboxRelay.RelayWorker`
  the relay loop; lemmas state that uninterrupted runs of the protocol do what
  these methods do.
* **Both layers together** (`TransferEndpoint.dfy`). The endpoint between the
  middleware and `authorize_transfer`, as one machine over both states.
* **Merkle batches, signed roots, SIEM witness** (`AuditBuffer.dfy`,
  `Merkle.dfy`, `MerkleShape.dfy`, `MerkleEvents.dfy`, `Gateway.dfy`,
  `FlushTasks.dfy`, `Siem.dfy`, `Witness.dfy`). `FlushTasks` runs any number of
  overlapping flush tasks; `Witness` runs gateway, WAL and SIEM together over
  flushes and retries whose POSTs are answered, lost, or processed without an
  answer, over any rewriting of the WAL, and over restarts of the gateway.
* **Policy engine** (`PolicyEngine.dfy`, `PolicyConditions.dfy`,
  `PolicyStore.dfy`, `Explanation.dfy`).
* **Circuit breaker** (`CircuitBreaker.dfy`) and **scrubber** (`PiiScrub.dfy`).

SHA-256 (section 6.2 of FIPS 180-4) is an arbitrary function to strings of 64
characters. It is never assumed to be injective: where an argument would need
that, a function returns `Evidence`, either two different texts with one digest
or a preimage of the all-zero value, and the theorem says that the evidence is
genuine. Concurrency is a state machine whose steps are functions of an event;
an event that is not enabled does nothing, so a theorem about all event
sequences is a theorem about all runs. Everything the environment decides (the
bank's verdict, UUIDs, serialized payloads, responses, lock and commit
failures, delivery of a POST) is a parameter or part of an event.

## Where the code does less than its description

Line numbers of `README.md` below are those of the repository's own README.md.
Each entry names what fails, the lemma with an input that shows it, and the
condition under which the property holds.

* The lock protects a request only while it lasts: README.md:35 promises the
  protection without that condition. `EarlyExpiryBreaksExclusion` gives the
  exact condition under which an expiry is harmless, `OutlivedLockRunsTwice`
  what happens otherwise, `OutlivedLockIsReachable` a run from the initial state.
* README.md:36 speaks of row locking with `FOR UPDATE`; the code relies on
  SQLite's single writer lock, and so does the model.
* README.md:38 promises at-least-once delivery. Nothing is published unsent,
  but the relay never rolls back. After a COMMIT that fails it can release the
  writer lock again if and only if something is left to select
  (`RelayRecoversIffPending`); `WedgeIsReachable` is a run in which it cannot.
* A transfer lost between its two transactions stays AUTHORIZING for ever, and
  exactly these do (`SettlesIffLive`; `AbandonedIsReachable`).
* README.md:27 says that any change to the ledger is noticed. Cutting rows off
  the end is not (`AcceptedPrefix`). A change that keeps the head is noticed,
  short of a collision, if and only if no field of the ledger holds `|`
  (`TamperEvidentIffPlain`); a user id may hold one (`SeparatorInUserId`). The
  head says nothing about idempotency keys (`KeyIsNotCommitted`).
* Different batches can share a Merkle root: every batch of odd size above 1,
  such as every full batch of 5, shares its root with the batch that repeats its
  last event (`OddBatchPadded`). Short of a collision two batches share a root
  if and only if they fill the complete tree in the same way
  (`SameRootIffSameShape`); a batch of distinct events is fixed by its root if
  and only if its size is a power of two (`FixedIffPowerOfTwo`).
* Overlapping flushes forget batches: the head covers every answered flush if
  and only if no answer came while a flush answered later was waiting
  (`HeadCoversAnswered`; `OverlapForgets`).
* `retry_worker` moves the head to the root of whatever WAL line it posts again.
  Gateway and SIEM agree on the head after every event if and only if every
  flush, retry and restart meets a condition on the request and the state before
  it (`AgreeIffHarmless`). One POST that never arrives and is retried after the
  next flush splits them until a restart (`LostPostSplitsForEver`), while a lost
  answer is healed by its retry (`LostAnswerHealsByRetry`). After a split they
  can agree again if and only if the state is recoverable
  (`CanAgreeIffRecoverable`).
* The breaker is open whenever a trip task sleeps if and only if no trip task
  ends while another one sleeps (`OpenIffTripsEndAlone`;
  `ClosedOverSleepingTrip`).
* The middleware caches what `authorize_transfer` returns, so a retry after a
  transfer that was lost between its transactions is told AUTHORIZING for good
  (`RetryCachesAuthorizing`). The cached status is AUTHORIZING if and only if
  the executing transfer found the intent of the key unsettled
  (`CachedOpenIffFoundOpen`).

## Model

| member | source | states |
|---|---|---|
| IdempotencyProtocol.MutualExclusion | core/idempotency.py:55-151 | over every run: before COMPLETED at most one request is past the wait loop, and the lock is there and its own; after COMPLETED nobody is between the record check and the COMPLETED write, although requests that never held the lock delete it |
| IdempotencyProtocol.RecordHistory | core/idempotency.py:109-140 | over every run the payload hash of the record never changes, COMPLETED is never overwritten and is written at most once |
| IdempotencyProtocol.OneAnswerPerKey | core/idempotency.py:82-147 | all answers below 500 ever given for the key carry one payload hash, status and text, those of the single logged execution |
| IdempotencyProtocol.StepKeepsInv | core/idempotency.py:55-151 | the inductive invariant tying lock, record, log and all program counters together survives every event, exceptions with lost replies included |
| IdempotencyProtocol.EarlyExpiryBreaksExclusion | core/idempotency.py:58-61 | an expiry followed by a poll keeps mutual exclusion if and only if the record is COMPLETED or nobody is past the wait loop |
| IdempotencyProtocol.OutlivedLockRunsTwice | core/idempotency.py:102-140 | when the lock of an executing request runs out, a polling request with the same payload executes as well and overwrites the first one's COMPLETED record |
| IdempotencyProtocol.OutlivedLockIsReachable | core/idempotency.py:53-151 | a run of five events from the initial state leads there: a cached 200 is replaced by a 201 |
| IdempotencyProtocol.LostReplyTakesEffect | core/idempotency.py:56-151 | an exception after a Redis command took effect leaves lock, record and log as the command does, one before it leaves them alone; inside `try` the request goes on to `finally`, elsewhere it is over |
| IdempotencyMiddleware.Middleware.Dispatch | core/idempotency.py:53-151 | whatever other requests do at each await, the result is determined by their events: a timeout if and only if every round of the wait loop up to the patience is blocked, and then lock, record and log are what the others alone made of them; else the mismatch, replay, exception or fresh answer that the record at the check decides. The result is justified by the record at return; a request that begins after COMPLETED replays, mismatches or times out, without calling the endpoint, and record and log stay |
| IdempotencyMiddleware.Middleware.WaitLoop | core/idempotency.py:56-79 | times out if and only if in every round up to the patience the lock is there at the poll and the record is not COMPLETED at the read, as the events of the other requests alone have it; else it ends in the first other round, with the lock exactly if that was free. Either way the state it leaves is stated |
| IdempotencyMiddleware.Middleware.TryBlock | core/idempotency.py:81-147 | mismatch, replay, exception or fresh answer, decided by the record found at the check; the invariant is kept at every await, and only replay or mismatch once the record was COMPLETED |
| IdempotencyMiddleware.Middleware.Serve | core/idempotency.py:109-140 | the result is the endpoint's own answer or exception |
| IdempotencyMiddleware.Middleware.AcquireLock | core/idempotency.py:58-61 | SET NX: acquired exactly if the lock was absent |
| IdempotencyMiddleware.Middleware.ReadRecordBehindLock | core/idempotency.py:65-79 | leaves the loop exactly on COMPLETED, else times out or polls again |
| IdempotencyMiddleware.Middleware.CheckState | core/idempotency.py:83-107 | mismatch, replay, or go ahead, decided by the record |
| IdempotencyMiddleware.Middleware.RecordStarted | core/idempotency.py:110-118 | writes STARTED with this payload's hash; the record's hash does not change |
| IdempotencyMiddleware.Middleware.CallNext | core/idempotency.py:121-131 | answers of 500 and above, and exceptions, bypass the cache |
| IdempotencyMiddleware.CollectBody | core/idempotency.py:124-126 | the body is the concatenation of the streamed chunks |
| IdempotencyMiddleware.ConcatJoins | core/idempotency.py:124-126 | every chunk is in the body once, in order |
| IdempotencyMiddleware.Middleware.RecordCompleted | core/idempotency.py:131-140 | writes and logs the one COMPLETED record |
| IdempotencyMiddleware.Middleware.FinallyDeleteLock | core/idempotency.py:149-151 | deletes whatever lock is there, and still keeps the invariant |
| AuditLedger.VerifyAuditChain | verify_chain.py:24-63 | accepts exactly the non-empty ledgers in which every row names the digest of the row before it (zeros for the first) and holds the digest of `prev|tx|action|payload`; otherwise names the first bad row and the check it fails |
| AuditLedger.AcceptedPrefix | verify_chain.py:27-55 | every prefix of an accepted ledger is accepted: truncation goes unnoticed |
| AuditLedger.UniqueParse | security/audit_chain.py:27 | the joined text determines previous hash, transaction, action and payload, even if the payload holds the separator |
| AuditLedger.SameHeadSameTexts | verify_chain.py:24-55 | two accepted ledgers with the same head, whatever their rows hold and however long they are, have equally many rows and the same hashed text in each, or a collision or genesis preimage is exhibited |
| AuditLedger.SameHeadSameLedger | verify_chain.py:24-55 | two accepted ledgers as the program writes them (no separator in ids and actions, any payloads) with the same head are equal row for row, or a collision or genesis preimage is exhibited |
| AuditLedger.TamperEvidentIffPlain | verify_chain.py:46-47 | a ledger cannot be replaced by a different accepted one with the same head, short of exhibited evidence, if and only if none of its fields holds the separator |
| AuditLedger.SeparatorInUserId | core/transaction.py:38-42 | a concrete first record, of a user whose name holds the separator, and the different row that passes for it |
| AuditLedger.StoredDigestNeedsCollision | core/database.py:46-53 | UNIQUE current_hash refuses an honest append only with an exhibited collision or genesis preimage |
| PaymentStore.TransactionManager.AppendRecord | security/audit_chain.py:8-36 | appends the row chained to the head and returns the new head, or fails on a stored digest; acceptance by the verifier is kept |
| PaymentStore.TransactionManager.AppendOutbox | core/transaction.py:13-19 | appends one pending event, or fails on a stored event id |
| PaymentStore.TransactionManager.Transaction | core/transaction.py:25-46 | a phase commits all three tables exactly when the lock is free, no constraint is violated and COMMIT succeeds; otherwise nothing changes |
| PaymentStore.TransactionManager.FindByKey | core/transaction.py:48-52 | finds the payment with the key exactly if there is one |
| PaymentStore.TransactionManager.AuthorizeTransfer | core/transaction.py:21-83 | known key: the existing payment, nothing changed; new key: unless the database is busy, an id or the digest is taken, or COMMIT fails, the rows of the first transaction, and unless that happens to the second one, those of both, with the intent id and the bank's verdict returned; rows, events and records are given outright; the tables stay consistent |
| PaymentStore.UninterruptedPhase | core/transaction.py:25-44 | the interleaved protocol, left alone, commits exactly what `Transaction` commits |
| PaymentStore.AloneCommitsIffSucceeds | core/transaction.py:25-53 | the interleaved protocol, left alone with any tables, busy errors and failing COMMITs, commits if and only if `Transaction` does; otherwise it rolls back and goes on to the lookup, or ends with the exception |
| PaymentStore.UninterruptedCall | core/transaction.py:21-83 | a whole call of the interleaved protocol, left alone, ends as `AuthorizeTransfer` does: with the existing payment, with an exception before or after the first transaction, or with the verdict |
| PaymentTables.TransactKeepsConsistent | core/transaction.py:25-44 | either transaction keeps keys unique, the three tables in step and the ledger accepted |
| PaymentTables.StatusFromEvents | core/transaction.py:62-78 | the status of an intent is determined by its outbox events, and by its ledger records, in both directions |
| PaymentTables.SameAuditHeadSamePayments | core/transaction.py:38-42 | databases with the same ledger head hold the same payments: ids, users, amounts, targets and statuses; or a collision or genesis preimage is exhibited |
| PaymentProtocol.StepKeepsInv | core/transaction.py:21-83 | under any interleaving the committed tables change only by a whole transaction, by marking sent events, or not at all, and the invariant over all connections is kept |
| PaymentGuarantees.TablesAlwaysAgree | core/transaction.py:25-78 | in every reachable database the verifier accepts the ledger, each status matches exactly its events and records, and nothing exists without its intent |
| PaymentGuarantees.HeadNeverStale | security/audit_chain.py:14-34 | from reading the head to COMMIT a transfer holds the writer lock and its head is the committed head |
| PaymentGuarantees.OneIntentPerKey | core/transaction.py:45-53 | any two calls with a key that return, at any two times, return the same intent id, and the same status unless one saw it AUTHORIZING |
| PaymentGuarantees.CommittedRowsAdvance | core/database.py:10-18 | rows and keys stay unique and permanent, a status only leaves AUTHORIZING, events only become published, the ledger only grows |
| PaymentGuarantees.OutboxDelivery | core/relay.py:8-27 | every committed PUBLISHED event was sent, and only events of committed payments are sent |
| PaymentGuarantees.AuditHeadCommitsToPayments | verify_chain.py:24-55 | two runs ending in the same ledger head have equal ledgers and payments (ids, users, amounts, targets, statuses), or a collision or genesis preimage is exhibited |
| PaymentProgress.SettlesIffLive | core/transaction.py:55-83 | an AUTHORIZING intent of a reachable state can still be settled if and only if a live call is between its two transactions, or the record to append exhibits a collision or genesis preimage |
| PaymentProgress.LiveCallCanSettle | core/transaction.py:62-83 | from any statement between its transactions, and whoever holds the writer lock, a call has a continuation that settles its intent |
| PaymentProgress.AbandonedStaysAuthorizing | core/transaction.py:55-83 | an intent with no live call between its transactions stays AUTHORIZING in every continuation |
| PaymentProgress.AbandonedIsReachable | core/transaction.py:55-60 | a run of seven events that abandons an intent |
| PaymentProgress.KeyIsNotCommitted | core/transaction.py:38-42 | two runs whose transfers differ in the idempotency key leave the same ledger |
| PaymentProgress.FailedRelayCommitBlocksWriters | core/relay.py:21-25 | a relay COMMIT that fails with nothing left to select blocks every writer until that connection is lost |
| PaymentProgress.RelayRecoversIffPending | core/relay.py:8-27 | an idle relay that holds the writer lock can release it without being lost if and only if something is left to select |
| PaymentProgress.WedgeIsReachable | core/relay.py:21-25 | a run from the initial state, one transfer and one relay, that leaves the relay holding the writer lock for good |
| OutboxRelay.RelayWorker.Poll | core/relay.py:11-22 | ten pending events, or all if there are fewer, are sent, each once, and marked; no other row changes |
| OutboxRelay.RelayWorker.PollRepeatedly | core/relay.py:8-27 | n pending events are drained in exactly ceil(n / 10) polls, one message each |
| OutboxRelay.SelectFirstSelects | core/relay.py:11 | the selection is min(n, 10) distinct pending events |
| OutboxRelay.UninterruptedPoll | core/relay.py:11-22 | the interleaved protocol, left alone, sends and publishes exactly the selection and frees the writer lock; after a failed COMMIT this still works while something is left to select |
| TransferEndpoint.StepKeepsInv | core/gateway.py:150-199 | under any interleaving of both layers, a successful answer on its way or logged is the body made of what the request's own transfer returned |
| TransferEndpoint.AnswersNameTheIntent | core/gateway.py:184-199 | every successful answer ever given for the key, executed or replayed, names the one intent with the key, and its status or AUTHORIZING |
| TransferEndpoint.CachedOpenIffFoundOpen | core/transaction.py:48-52 | the cached status is AUTHORIZING if and only if the executing transfer's lookup found the key's intent unsettled |
| TransferEndpoint.CachedForGood | core/idempotency.py:102-140 | no later event of either layer changes a cached answer |
| TransferEndpoint.RetryCachesAuthorizing | core/transaction.py:45-60 | a run from the initial state, a request that dies and its retry, after which cache and database say AUTHORIZING in every continuation |
| Merkle.BuildMerkleRoot | core/crypto_audit.py:11-20 | the loop over pairs and the recursion over levels compute the root function that the lemmas are about |
| Merkle.SameRootSameLeaves | core/crypto_audit.py:11-20 | batches of equal length with the same root are equal, or a collision is exhibited |
| Merkle.RootInLogLevels | core/crypto_audit.py:15-20 | n leaves shrink to the root in d levels with 2^(d-1) < n <= 2^d |
| Merkle.EveryTwoLengthsShareARoot | core/crypto_audit.py:11-20 | the root function alone does not bind lengths: for every two lengths there are lists of digests of those lengths with the same root |
| MerkleShape.RootOfFull | core/crypto_audit.py:16-20 | the root of a batch is that of the complete tree in which odd duplication puts its leaves |
| MerkleShape.OddBatchPadded | core/crypto_audit.py:18 | a batch of odd size above 1 and the batch with its last leaf repeated have the same root |
| MerkleEvents.SameRootSameDepth | core/crypto_audit.py:11-20 | batches of events, none of which is two digests in a row, with the same root form trees of the same depth, or a collision is exhibited |
| MerkleEvents.SameRootIffSameShape | core/crypto_audit.py:11-20 | two batches of such events have the same root if they fill the complete tree in the same way, and only then, or a collision is exhibited |
| MerkleEvents.FixedIffPowerOfTwo | core/crypto_audit.py:15-19 | no other batch fills the tree like a given batch of distinct events if and only if its size is a power of two |
| MerkleEvents.SameRootSameEvents | core/crypto_audit.py:11-20 | batches that are both distinct, of any sizes, with the same root are the same events in the same order, or a collision is exhibited |
| MerkleEvents.ObjectsAreRecognizable | core/app/stages.py:110-111 | serialized objects are never two digests in a row, since no digest begins with a brace |
| AuditBuffer.NothingLost | core/app/stages.py:47-55 | batches handed over plus buffer are the arrivals in order; the buffer stays below the threshold, batches have 1 to 5 leaves, and the full-buffer error is unreachable |
| AuditBuffer.Buffer.Process | core/app/stages.py:112-117 | buffers one hash or hands over a full batch; never refuses in a sound state |
| AuditBuffer.Buffer.PeriodicFlush | core/app/stages.py:50-55 | hands over what is buffered and loses nothing |
| Gateway.Gateway.FlushBatch | core/app/stages.py:25-45 | posts the signed digest of head and Merkle root; any answer makes it the head, and without one it is appended to the WAL and the head stays |
| Gateway.Gateway.RetryPass | core/app/stages.py:65-80 | posts every WAL line again, in order, and leaves exactly the lines whose POST was not answered, in their order |
| Gateway.LastAnswerIsHead | core/app/stages.py:75 | after a pass the head is the root of the last answered line, or unchanged without one |
| Gateway.SameHeadSameHistory | core/app/stages.py:27-41 | equal batch sizes and equal heads mean equal histories, or a collision in the chain or in a tree is exhibited |
| Gateway.SameHeadSameRoots | core/app/stages.py:27-41 | histories of any lengths and batch sizes with the same head have equally many batches with the same roots, or a collision or zero preimage is exhibited |
| Gateway.SameHeadIffSameShapes | core/app/stages.py:27-41 | histories of events have the same head if they have equally many batches that fill their trees in the same way, and only then, or a collision or zero preimage is exhibited |
| Gateway.SameHeadSameEvents | core/app/stages.py:27-41 | histories of batches of distinct events, of any lengths and sizes, with the same head are equal, or a collision or zero preimage is exhibited |
| Gateway.HeadsRepeatOnlyOnCollision | core/app/stages.py:28 | a head that occurs twice exhibits a collision or a preimage of zero |
| FlushTasks.HeadIsTracked | core/app/stages.py:25-82 | however flush tasks overlap, fail, are retried and end, the head stands for a sublist of the answered batches in order of their answers, and for all of them exactly if the run is orderly |
| FlushTasks.AnswerExtendsHead | core/app/stages.py:28-41 | an answer extends the head by its batch if and only if the head its task read is still the current one, or a collision is exhibited |
| FlushTasks.HeadCoversAnswered | core/app/stages.py:25-82 | the head covers all answered batches in order if and only if no answer came while a task answered later, by its POST or by a retry, was waiting; or a collision or zero preimage is exhibited |
| FlushTasks.OrderlyAnswersInTurn | core/app/stages.py:25-41 | in an orderly run with every task answered the head covers every batch in the order in which the tasks began |
| FlushTasks.UninterruptedFlush | core/app/stages.py:25-41 | a task that nothing interrupts does what an answered `FlushBatch` does |
| FlushTasks.OverlapForgets | core/app/stages.py:28-41 | of two overlapping tasks the one answered first is forgotten |
| FlushTasks.SameHeadSameAuditTrail | core/app/stages.py:108-118 | from arrivals on, under orderly flush tasks with any losses: equal heads and equal sizes of answered batches mean the same event hashes in the same order, all arrivals up to what is buffered where every task was answered; or a collision |
| FlushTasks.SameHeadSameEventsAudited | core/app/stages.py:108-118 | the same for events with nothing known about sizes: equal up to the repetition of odd last events, and equal outright where no batch repeats an event |
| Witness.AgreeIffHarmless | core/app/stages.py:38-80 | over every run of flushes, retries, WAL rewrites and restarts, gateway and SIEM agree on the head after each event if and only if each event meets a condition on the request and the state before it; or evidence is exhibited |
| Witness.HarmlessHoldsAllHeads | core/app/stages.py:38-80 | after such events the SIEM holds exactly the heads of the gateway's history, one row per batch, however many POSTs were lost and retried; or evidence is exhibited |
| Witness.AgreesAgainIffHealed | core/app/stages.py:70-75 | after a split over a non-empty table the heads agree again in a run if and only if it has a healing event: an answered POST of the latest root, a recorded and answered retry, or a retry recorded without an answer at the gateway's own root; or evidence is exhibited |
| Witness.CanAgreeIffRecoverable | core/app/stages.py:57-80 | from a state with a non-empty table some continuation without a restart leads to agreement if and only if the head, or a WAL line, stands for a prefix of what the latest root stands for, or a WAL line continues from it; or evidence is exhibited |
| Witness.UnrecoverableForEver | siem_service.py:76-84 | otherwise the heads differ and the table does not grow until a restart, whatever is flushed and retried; or evidence is exhibited |
| Witness.LostPostSplitsForEver | core/app/stages.py:70-75 | a run from the initial state: one lost POST, one answered flush, all harmless, and the answered retry of the lost line splits gateway and SIEM until a restart |
| Witness.LostAnswerHealsByRetry | core/app/stages.py:70-75 | a run from the initial state: a lost answer and another answered flush split the heads, and the retry of the lost line makes them agree again |
| Witness.EmptyTableHeals | siem_service.py:76-84 | over an empty table an answered flush restores agreement exactly if it is recorded |
| Witness.SiemMirrorsGateway | siem_service.py:53-99 | whatever submissions are made of whatever histories, and however late, often or out of order they are delivered, the table is the end of the sequence of heads of the one history its latest root stands for; or evidence is exhibited |
| Witness.RunMirrors | siem_service.py:53-99 | in the runs of a gateway every stored root moreover continues from a head that the gateway had |
| Witness.PassIsRun | core/app/stages.py:65-78 | a pass of `retry_worker` does to head, table and WAL what its retries and the rewriting of the file do one by one |
| Siem.SiemService.IngestRoot | siem_service.py:53-99 | each of the five answers by its exact condition: ignored if stored; forbidden if the signature fails; conflict if it passes, the last root is not all zeros and another predecessor is named; an error if the signature is malformed, or an acceptable root meets a database error; else the root is stored, and in no other case |
| Siem.LatestRootIsTip | siem_service.py:43-51 | the root that `/latest` reports is the only one that no row after the first names as its predecessor, while no all-zero root is stored |
| Siem.AppendOnlyAndLinked | siem_service.py:58-92 | under any submissions the table only grows and keeps distinct, validly signed, linked roots |
| Siem.NoForks | siem_service.py:76-84 | no two rows after the first name the same predecessor, and none names a row other than the preceding one, while no all-zero root is stored |
| Siem.UnlinkedIffZeroSigned | siem_service.py:79-84 | some run stores a row that does not name the row before it if and only if a signature of the all-zero root, and of another root, passes |
| Siem.ReplayChangesNothing | siem_service.py:58-62 | resubmitting a stored root, at any later time, is ignored |
| Siem.AnyDeliveryStoresAWindow | siem_service.py:53-99 | any delivery of one gateway's chain stores a contiguous window of it |
| Siem.InOrderDeliveryStoresAll | siem_service.py:53-99 | delivery in order stores the whole chain |
| PolicyEngine.FirstMatch | core/sentinel-core/src/engine.rs:44-59 | the index of the first matching policy |
| PolicyConditions.NnfKeepsMeaning | core/sentinel-core/src/engine.rs:12-31 | every condition tree evaluates like its negation normal form, which has one field per node and negations only on atoms |
| PolicyConditions.OnlyMentionedMatter | core/sentinel-core/src/engine.rs:12-31 | contexts that agree on the attributes named in deciding fields give the same result; hidden fields and other attributes have no influence |
| PolicyConditions.EvaluationDependsOnMentioned | core/sentinel-core/src/engine.rs:34-90 | the same for whole evaluations, both tracks and all traces |
| PolicyConditions.EqIsContainsBothWays | core/sentinel-core/src/engine.rs:12-22 | `eq` holds exactly if `contains` holds both ways |
| PolicyConditions.NumberOperators | core/sentinel-core/src/engine.rs:15-16 | `gt` holds exactly if the attribute is above the policy's number, `lt` exactly if it is below |
| PolicyConditions.TextOperators | core/sentinel-core/src/engine.rs:17-18 | `eq` is equality; `contains` holds exactly if the attribute is some text, the policy's text, and some text |
| PolicyConditions.ListOperators | core/sentinel-core/src/engine.rs:19-20 | `in` holds exactly for the members of the list, `not_in` for all other values |
| PolicyConditions.OtherComparisonsFail | core/sentinel-core/src/engine.rs:15-21 | a missing attribute, a value of another type and an unknown operator give false |
| PolicyConditions.FirstFieldDecides | core/sentinel-core/src/engine.rs:12-31 | of atom, and, or, not the first that is given decides; none of them is false |
| PolicyEngine.Fold | core/sentinel-core/src/engine.rs:40-67 | the single pass computes both tracks: none, first match, or last |
| PolicyEngine.Evaluate | core/sentinel-core/src/engine.rs:34-90 | an unknown tool is denied by "system"; else one trace per policy, with the mode and match of that policy; either track denies exactly if a policy of its mode matches, and abstains exactly if it has none |
| PolicyStore.Store.LoadFromFile | core/sentinel-core/src/store.rs:24-45 | the index holds exactly the file's tools with their policies in file order; a bad file changes nothing |
| PolicyStore.IndexRefinesScan | core/sentinel-core/src/store.rs:30-38 | evaluation through the index equals a scan of the flat list |
| PolicyStore.LoadAndEvaluate | core/sentinel-core/src/store.rs:24-53 | load, snapshot and evaluate together are that scan |
| PolicyStore.DecisionMeaning | core/sentinel-core/src/engine.rs:34-78 | Deny iff the tool is unknown or an Enforce policy matches; Abstain iff it has only Shadow policies; which policy is named |
| PolicyStore.SwapModesSwapsTracks | core/sentinel-core/src/engine.rs:55-66 | swapping all modes swaps the two tracks |
| PolicyStore.InsertionLeavesOtherTrack | core/sentinel-core/src/engine.rs:55-66 | policies of one mode inserted anywhere leave the other track unchanged |
| PolicyStore.PermutationKeepsDecisions | core/sentinel-core/src/engine.rs:44-67 | reordering the file changes neither decision |
| Explanation.PipelineContext.Execute | core/app/pipeline.py:5-9 | evaluation and explanation through the index of a file: SUCCESS exactly if the tool has an Enforce policy and none matches, else one reason per matching Enforce policy in file order, the first naming the deciding one |
| Explanation.PipelineContext.Explain | core/app/stages.py:100-106 | appends the reasons of the traces if and only if DENIED |
| Explanation.ExplanationsAgree | core/app/stages.py:93-106 | reasons are the matching Enforce policies in order, the first is the deciding one, and a denial without reasons occurs exactly when the tool has no Enforce policy |
| CircuitBreaker.NeverSticks | security/opa_client.py:22-57 | under any overlap, when no trip task is left the breaker is closed, below threshold and lets the next request through |
| CircuitBreaker.TrueOnlyFromOpa | security/opa_client.py:30-57 | true is returned only for OPA's own true answer to that request |
| CircuitBreaker.ThirdErrorTrips | security/opa_client.py:43-57 | over every run a communication error creates a trip task if and only if at least two others came since the last answer or the last end of a trip |
| CircuitBreaker.OpenIffTripsEndAlone | security/opa_client.py:22-28 | over every run the breaker is open whenever a trip task sleeps if and only if no trip task ends while another one sleeps |
| CircuitBreaker.ClosedOverSleepingTrip | security/opa_client.py:22-57 | a run of four failing requests and two trip tasks in which the first to end closes the breaker over the other |
| CircuitBreaker.StepKeepsInv | security/opa_client.py:22-57 | open only while a trip task sleeps, at the threshold only while one is unfinished |
| CircuitBreaker.ResilientOpaClient.BeginEvaluate | security/opa_client.py:30-35 | refused exactly while open |
| CircuitBreaker.ResilientOpaClient.EndEvaluate | security/opa_client.py:43-47 | returns OPA's answer and resets the count |
| CircuitBreaker.ResilientOpaClient.FailEvaluate | security/opa_client.py:49-57 | returns false, counts, and creates a trip task from the third failure on |
| CircuitBreaker.ResilientOpaClient.TripBreaker | security/opa_client.py:22-25 | opens the breaker |
| CircuitBreaker.ResilientOpaClient.HalfOpen | security/opa_client.py:26-28 | closes it and resets the count |
| PiiScrub.ScrubPii | security/pii_scrub.py:13-25 | IBAN, CARD and EMAIL passes in this order, and no IBAN-shaped substring survives them |
| PiiScrub.SubstituteIban | security/pii_scrub.py:22-23 | the scan performs the substitution; a text that is an IBAN as a whole becomes its label |
| PiiScrub.MatchLength | security/pii_scrub.py:8 | the match is the longest: 15 to 34 characters of the pattern, and no longer one begins at the same place |
| PiiScrub.SubIbanReplacesMatches | security/pii_scrub.py:22-23 | the first pass divides every text into gaps and leftmost greedy matches, and replaces the matches |
| PiiScrub.ReplacedIsRelabelled | security/pii_scrub.py:22-23 | every match, and nothing else, is replaced by the label of its pattern |
| PiiScrub.SubIbanIsFree | security/pii_scrub.py:8 | the first pass leaves no match |
| PiiScrub.ReplacedIsFree | security/pii_scrub.py:22-23 | replacing disjoint segments by labels creates no match |
| PiiScrub.SubIbanChangesOnlyIbans | security/pii_scrub.py:8 | the first pass changes a text exactly if it holds an IBAN, and is idempotent |

## Left out

- IdempotencyMiddleware.Middleware.Dispatch: in this method only the endpoint raises; failing Redis calls, crashes and lock expiry are events of `IdempotencyProtocol`, whose theorems cover them.
- IdempotencyMiddleware.Middleware.WaitLoop: MAX_WAIT_TIME is counted in polls, since no clock is modelled.
- PaymentStore.TransactionManager.AuthorizeTransfer: no other connection acts between its statements; interleavings, rollbacks and crashes are events of `PaymentProtocol`.
- OutboxRelay.RelayWorker.Poll: a poll without failures; failing statements and commits are events of `PaymentProtocol`.
- Expiry of the idempotency record after IDEMPOTENCY_TTL: the record is taken to last.
- Methods other than POST, PUT and PATCH, requests without a key, and the building of Redis key names: read off one branch each.
- Response headers in the cache: copied except for two names.
- The contents of serialized payloads: JSON encoding is foreign code, so the audit texts are functions of the hashed fields, assumed injective only in `SameAuditHeadSamePayments`, and the outbox texts are arbitrary.
- SQLite's shared locks: a reader can only make a COMMIT fail, which the protocol allows at any time anyway.
- Several idempotency keys at once: different keys share no state in Redis.
- Conservation of WAL lines: `retry_worker` rewrites the file after awaits during which lines may be appended, so none holds; a rewrite may keep any lines.
- Witness.AgreeIffHarmless: each flush and each retried line is one event, so that POSTs do not overlap; overlapping tasks and late answers are in `FlushTasks`, and `SiemMirrorsGateway` covers deliveries in any order.
- RSA-PSS: an arbitrary outcome for each root and signature.
- f32 rounding and NaN in policy values: reals.
- The CARD and EMAIL expressions: arbitrary replacements of disjoint segments by their labels, so idempotence of the whole scrubber is not stated.
- Python's `\d` beyond ASCII: an arbitrary class without the two brackets.
- `SentinelCore.audit_and_verify`, the YAML policy engine, scopes, the Rego policy, the security gate and the enforcer: settled by reading one function each.
- EnrichmentStage and the pipeline driver: lookups without a state of their own.
- `main.py`, `sub_manager.py`, the admin tools, load tests and container files: wiring.
