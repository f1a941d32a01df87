# Verification of the document pipeline, Mission Control and their companions

This Dafny project models the parts of the microservices lab whose correctness spans several calls, several
processes or a whole run, and proves what they keep.

* **Delivery.** An upload commits a document and an outbox row together (`Documents`, `Outbox`); relays publish
  pending rows; the worker guards, handles, retries through timed wait queues, dead-letters and reports (`Retry`,
  `Idempotency`, `Delivery`, `DeliverySafety`, `DeliveryLoss`, `DeliveryProgress`, `Consumer`); the API applies the
  result (`Documents`), possibly on several replicas at once (`EndToEnd`). `Delivery`, `Outbox` and `EndToEnd` are
  state machines over all interleavings, with crashes, redeliveries, lost and unseen publishes as ordinary steps. The
  classes `Consumer`, `Store` and `DocumentService` are the imperative code; their contracts tie them to the machines.
  `Witnesses` holds runs that reach the hard cases, and `Topology` is the broker layout all of it relies on.
* **Mission Control.** The output broker and its slow clients (`Sse`), the action engine (`Engine`), the session
  recorder (`Sessions`) with its event log (`SessionLog`) and summary (`Timeline`), over shared FIFO histories (`Fifo`).
* **Authentication.** Refresh-token rotation with reuse detection (`Refresh`), account lockout (`Lockout`), and the
  service calls that drive both (`Auth`).
* **Algorithms.** Greedy chunking (`Chunking`), deadline polling (`Polling`), concurrent maps, retries and batches
  (`Batching`), the cumulative histogram (`Histogram`), the scored report's writer and reader (`Report`), and the
  cache-aside profile service (`ProfileCache`). `Sorting` is the stable sort that timelines and buckets rely on,
  `Text` the strings, `Counting` the counting of positions.

Where the source updates state step by step the model is a class or a method with loops, proved against functions and
machines on values; what the source promises is then proved about those. A state machine `M` has `Enabled`, `Next` and
`IsRun`; a theorem about `ss[n]` of a run `ss` holds in every reachable state. In `Delivery`, an envelope is
*abandoned* when a worker lets go of a delivery (crash, lost connection, requeue) after the guard admitted it and before
its follow-up publish took effect.

## Model

| member | source | states |
|---|---|---|
| `Retry.CountDeaths` | graph-worker/graphrag-service/src/worker/retry.py:46-75 | the accumulating loop, with its early exits for malformed entries, computes the sum of the counts of entries from the consumer's own wait queues |
| `Retry.DeathSumOfCounted` | graph-worker/graphrag-service/src/worker/retry.py:61-75 | entries from other queues, non-tables and unusable counts, anywhere in the header, never change the count |
| `Retry.EntryContributes` | graph-worker/graphrag-service/src/worker/retry.py:61-75 | one entry, wherever it stands, adds its number if its queue, as text or bytes, begins with the prefix, and nothing if it names another queue or none or has no number |
| `Retry.RungIsCount` | graph-worker/graphrag-service/src/worker/retry.py:32-75 | if the counted entries are tiers 0..a-1 once each, the count is a and the selected tier is number a, or none after the last |
| `Retry.ExpiryClimbs` | graph-worker/graphrag-service/src/worker/retry.py:46-75 | expiry in the selected wait queue, under the broker's bump-and-move-to-front rule, raises the count by exactly one and keeps each tier counted once |
| `Retry.ExpiryCountsOnce` | graph-worker/graphrag-service/src/worker/retry.py:46-75 | whatever the header held, an expiry in a queue of ours raises the count by one, elsewhere it leaves it, and its entry comes first |
| `Idempotency.KeysInjective` | graph-worker/graphrag-service/src/worker/idempotency.py:29-45 | within a queue no two (envelope id, attempt) pairs share a guard key, whatever characters the id holds |
| `Idempotency.KeysInjectiveAcrossQueues` | graph-worker/graphrag-service/src/worker/idempotency.py:29-45 | across queues a key tells queue, id and attempt, unless one queue's name continues the other's after a colon |
| `Idempotency.KeysCollideIff` | graph-worker/graphrag-service/src/worker/idempotency.py:29-45 | two different queues can meet in a key, for some ids and attempts, if and only if one's name continues the other's after a colon |
| `Idempotency.KeysCollideAcrossQueues` | graph-worker/graphrag-service/src/worker/idempotency.py:29-45 | for the queues "a:b" and "a" two different triples do share a key |
| `Idempotency.InMemoryGuard.Begin` | graph-worker/graphrag-service/src/worker/idempotency.py:70-76 | granted exactly when the key is unseen or its window over, and then held until now plus the TTL; otherwise the table is unchanged |
| `Idempotency.GrantedIff` | graph-worker/graphrag-service/src/worker/idempotency.py:70-76 | in any sequence of calls a call is granted if and only if it lies at or after the end of every earlier window of its key |
| `Idempotency.GrantsAreSpaced` | graph-worker/graphrag-service/src/worker/idempotency.py:70-76 | so two grants of one key lie at least the TTL apart, whatever the clock does |
| `DeliverySafety.SafeKept` | graph-worker/graphrag-service/src/worker/consumer.py:201-381 | the safety invariant of the whole delivery protocol survives every step of any worker, including crashes, lost and unconfirmed publishes and guard failures |
| `DeliverySafety.ReachableIsSafe` | graph-worker/graphrag-service/src/worker/consumer.py:201-381 | every state of every run satisfies it |
| `DeliverySafety.CopiesStayOnLadder` | graph-worker/graphrag-service/src/worker/consumer.py:311-357 | in every run, with any faults, each copy's counted x-death entries are tiers 0..attempt-1 once each and attempt is at most 3 |
| `DeliverySafety.HandlerAtMostOnce` | graph-worker/graphrag-service/src/worker/consumer.py:231-241 | while the guard does not fail or lapse, each (envelope id, attempt) reaches the handler at most once, across crashes, redeliveries and duplicate publishes |
| `DeliverySafety.HandlerAtMostFourTimes` | graph-worker/graphrag-service/src/worker/consumer.py:231-272 | so the handler is called at most four times for an envelope |
| `DeliverySafety.AtMostOneResult` | graph-worker/graphrag-service/src/worker/consumer.py:359-381 | at most one task.result is ever published for an envelope |
| `DeliverySafety.AtMostOneDeadLetter` | graph-worker/graphrag-service/src/worker/consumer.py:359-381 | at most one dead-lettered copy of an envelope ever exists |
| `DeliverySafety.OneTerminalCall` | graph-worker/graphrag-service/src/worker/consumer.py:261-275 | of two handler calls for one envelope at least one was followed by a retry: only one can be terminal |
| `DeliverySafety.GarbledIsDeadLettered` | graph-worker/graphrag-service/src/worker/consumer.py:215-225 | in every run a body that does not parse is gone only when a dead-lettered copy of it, with its headers, is there |
| `DeliveryLoss.ReachableIsOrderly` | graph-worker/graphrag-service/src/worker/consumer.py:201-289 | in every run every held guard key is accounted for by a handler call, an admitted delivery or an abandoned envelope, and an envelope that is not abandoned has its result or a copy that will bring it |
| `DeliveryLoss.ResultIffNotAbandoned` | graph-worker/graphrag-service/src/worker/consumer.py:213-289 | when no copy is live, an envelope has a result if and only if no worker let go of it between the guard's admission and the effect of the follow-up publish; the other half of the requeue comment at lines 208-211 does not hold of the code |
| `DeliveryLoss.NeverOutOfSight` | graph-worker/graphrag-service/src/worker/consumer.py:213-289 | at every moment an envelope has its result or a copy that will still bring it forward, exactly when it was not abandoned |
| `DeliveryLoss.OutcomeOfResult` | graph-worker/graphrag-service/src/worker/consumer.py:261-276 | the unique result says completed exactly when its handler call returned normally, and a dead-lettered copy at that call's attempt exists exactly when the call was unretryable, or retryable with no tier left |
| `DeliveryLoss.ExactlyOneOutcome` | graph-worker/graphrag-service/src/worker/consumer.py:201-289 | without crashes, requeues and failed publishes every envelope ends, once nothing is live, with exactly one result, completed exactly when its call was, and dead-lettered exactly when that call was unretryable, or retryable with no tier left |
| `Witnesses.EnvelopeLost` | graph-worker/graphrag-service/src/worker/consumer.py:208-241 | a run, with the guard reliable, in which an envelope is requeued after the guard admitted it, redelivered, skipped as a duplicate and acknowledged: nothing is live, no result exists |
| `Witnesses.LapsedKeyRunsTwice` | graph-worker/graphrag-service/src/worker/consumer.py:231-241 | a run in which the guard's key lapses after a crash and the same attempt is handled twice: that each is handled at most once needs the guard to keep what it holds |
| `Witnesses.EnvelopeDelivered` | graph-worker/graphrag-service/src/worker/consumer.py:201-289 | a fault-free run that ends with nothing live and exactly one result: the outcome theorems speak of runs that exist |
| `DeliveryProgress.WorkFalls` | graph-worker/graphrag-service/src/worker/consumer.py:201-357 | every fault-free delivery step and every wait-queue expiry lowers a measure over all copies |
| `DeliveryProgress.NeverStuck` | graph-worker/graphrag-service/src/worker/consumer.py:201-289 | as long as a copy is live some fault-free step is enabled on it |
| `DeliveryProgress.WorkIsBounded` | graph-worker/graphrag-service/src/worker/consumer.py:201-357 | a fault-free run takes at most 28 steps per published copy, expiries and acks included |
| `Consumer.Consumer.Acquire` | graph-worker/graphrag-service/src/worker/consumer.py:291-309 | true exactly when the id is empty, the guard fails, or the attempt-scoped key is free; only in the last case is the key taken, for the TTL |
| `Consumer.Consumer.Emit` | graph-worker/graphrag-service/src/worker/consumer.py:346-357 | one follow-up publish: it adds its waiting copy, dead letter or result, is lost, or adds it unseen, and in the last two cases the delivery is requeued |
| `Consumer.Consumer.RetryOrDeadLetter` | graph-worker/graphrag-service/src/worker/consumer.py:311-336 | a retryable failure leads to the next tier, or after the last tier to the poison publish and the failed result, as the machine's steps |
| `Consumer.Consumer.DeadLetter` | graph-worker/graphrag-service/src/worker/consumer.py:359-381 | poison copy first, failed result second; when the first fails the second is not tried |
| `Consumer.Consumer.RejectUnparseable` | graph-worker/graphrag-service/src/worker/consumer.py:215-225 | an unparseable body is dead-lettered with its headers and acknowledged without a result; an unseen confirm leaves the dead letter and requeues, a lost publish only requeues |
| `Consumer.Consumer.Process` | graph-worker/graphrag-service/src/worker/consumer.py:243-276 | handler, follow-up and ack in the source's order are a path of the machine; when no publish or ack fails, a completed or failed return leaves one result, a retryable failure the next tier's copy, and an unretryable or exhausted one a dead letter with body and headers and a failed result |
| `Consumer.Consumer.HandleDelivery` | graph-worker/graphrag-service/src/worker/consumer.py:201-289 | one delivery, whatever fails in it, is exactly the named path of machine steps; when nothing fails it leaves a dead letter for a garbled body, nothing for a duplicate, and otherwise a handler call with its answer |
| `Consumer.PathsAreSafe` | graph-worker/graphrag-service/src/worker/consumer.py:201-289 | following such a path from a safe state stays safe, so the run theorems cover the imperative handler |
| `Outbox.BatchIsOldestPending` | api-service/internal/infrastructure/outbox/outbox.go:96-108 | a batch is unsent, unlocked rows in id order, none skipped, cut only by the limit |
| `Outbox.ReachableInv` | api-service/internal/infrastructure/outbox/outbox.go:93-230 | the outbox invariant holds in every run with any number of relays, crashing anywhere |
| `Outbox.NoRowHeldTwice` | api-service/internal/infrastructure/outbox/outbox.go:93-108 | no row is ever in the batches of two open relay transactions |
| `Outbox.CallsAreConserved` | api-service/internal/infrastructure/outbox/outbox.go:188-230 | per row, publish calls equal committed attempts plus one if sent plus rolled-back tries plus the one in progress, and a sent row was confirmed at least once |
| `Outbox.CommittedRowsPersist` | api-service/internal/infrastructure/outbox/outbox.go:110-135 | rows are never removed or renamed, sent never reverts, counters never fall, over any stretch of any run |
| `Outbox.PendingRowIsPicked` | api-service/internal/infrastructure/outbox/outbox.go:96-108 | an unsent, unheld row is in the next batch unless the limit is used up by older rows |
| `Outbox.Store.MarkSent` | api-service/internal/infrastructure/outbox/outbox.go:113-123 | exactly the given rows are stamped sent |
| `Outbox.Store.MarkFailed` | api-service/internal/infrastructure/outbox/outbox.go:125-135 | exactly the given rows count one more attempt |
| `Outbox.Store.RelayOnce` | api-service/internal/infrastructure/outbox/outbox.go:188-230 | a batch transaction stamps each picked row whose publish was confirmed, counts an attempt on each other picked row and leaves the rest, or leaves the whole table when it does not commit |
| `Outbox.RelayOnceIsPath` | api-service/internal/infrastructure/outbox/outbox.go:188-230 | that table is what a path of the machine leaves: the batch, its publishes in order and the commit, or a rollback after any number of publishes |
| `Documents.FirstResultWins` | api-service/internal/domain/document/service.go:204-237 | whatever sequence of results for whatever documents is applied, a document ends with its first decisive one, and a terminal document as it was |
| `Documents.RedeliveryIsHarmless` | api-service/internal/domain/document/service.go:204-237 | a result applied again at any later point leaves every document as it would have been without it |
| `Documents.DocumentService.CreateWithTask` | api-service/internal/infrastructure/postgres/document_repository.go:66-115 | document row, outbox row and the move to processing are committed together or not at all |
| `Documents.DocumentService.Upload` | api-service/internal/domain/document/service.go:45-120 | exactly when every step succeeds there is a processing document with its outbox row and object; otherwise the database is untouched and at most the object is left behind, only if its deletion failed |
| `Documents.DocumentService.ApplyTaskResult` | api-service/internal/domain/document/service.go:204-237 | a pending or processing document gets the status of a completed or failed result; unknown and terminal documents and other statuses are left alone without error; a failed read or needed write is an error with nothing changed |
| `Documents.DocumentService.Handle` | api-service/internal/domain/task/results.go:59-115 | a task.result with a payload of status completed or failed for a document is applied exactly as that; wrong type, missing payload, unknown status and missing or malformed document id are dropped without error |
| `Documents.DocumentService.HandleDelivery` | api-service/internal/infrastructure/rabbitmq/results_consumer.go:107-125 | acknowledged unless an addressed result meets a failed read, or a failed write that was needed; then it is requeued and nothing has changed |
| `EndToEnd.InvKept` | api-service/internal/domain/document/service.go:45-237 | the invariant of upload, outbox, broker, worker and result application survives every step of any part, with any number of handlings of one result under way at once, each between its read and its write |
| `EndToEnd.HandlingIsHandle` | api-service/internal/domain/task/results.go:59-115 | read and write with nothing in between do what the result handler does with the message the result travels in, and with a failed write nothing |
| `EndToEnd.WriteIsOfItsRead` | api-service/internal/domain/document/service.go:204-237 | whatever happens in between, a write changes a document only if the status read was not terminal, and only to that of its result |
| `EndToEnd.OneRowPerUpload` | api-service/internal/infrastructure/postgres/document_repository.go:66-115 | in every run a committed upload has exactly one outbox row, the same row with the same envelope ever after, even when the document is deleted |
| `EndToEnd.OneResultPerDocument` | api-service/internal/domain/document/service.go:204-237 | in every run a document has at most one result, however often its envelope is published or delivered |
| `EndToEnd.StatusStep` | api-service/internal/domain/document/service.go:204-237 | in every run one step changes a document's status from processing to a terminal one or not at all, although several replicas may hold stale reads and write them late |
| `EndToEnd.TerminalForEver` | api-service/internal/domain/document/service.go:204-237 | in every run a terminal status stays for as long as the document exists |
| `EndToEnd.StatusIsThatOfItsResult` | api-service/internal/domain/task/results.go:59-115 | in every run a committed document is never pending and a terminal status is that of its envelope's unique result |
| `EndToEnd.EveryDocumentSettles` | api-service/internal/infrastructure/rabbitmq/results_consumer.go:107-125 | when all rows are sent, no copy is live and every result is settled, a document is terminal if and only if its envelope was not abandoned |
| `Witnesses.StaleReadIsReached` | api-service/internal/domain/document/service.go:204-237 | such a stale read is reachable: one replica has completed the document while another still holds processing as what it read |
| `Witnesses.StaleWriteIsHarmless` | api-service/internal/infrastructure/rabbitmq/results_consumer.go:107-125 | in a run that goes on from there the late write repeats the status and everything comes to rest |
| `Sse.ExpandsIsExactCopy` | mission-control/controld/sse.go:78-95 | reading the expansion backwards or forwards is the same: each line item is the line at its own position and each marker stands for its count of lines, with nothing left over |
| `Sse.OfferedExtends` | mission-control/controld/sse.go:80-95 | offering a line, kept, dropped or after a flushed marker, with or without a receive between marker and line, extends the client's copy by exactly that line and keeps the buffer bound |
| `Sse.Subscriber.TrySend` | mission-control/controld/sse.go:80-95 | the marker is sent exactly when drops are owed and the buffer has room, the line exactly when it has room then; otherwise the line alone is counted, and only while the buffer is full; the client may receive between the two sends |
| `Sse.Broker.Publish` | mission-control/controld/sse.go:64-76 | the line reaches the ring and is offered, as above, to every live subscriber, none after close; every client's copy stays exact |
| `Sse.Broker.Subscribe` | mission-control/controld/sse.go:100-110 | ring snapshot and registration are one step: the replay is the last maxRing published lines and the new copy starts as exactly that; a finished action only replays |
| `Sse.Broker.Close` | mission-control/controld/sse.go:122-135 | closes each live channel once with its unflushed drops stashed; a second close changes nothing |
| `Sse.Broker.Turn` | mission-control/controld/sse.go:173-196 | one turn of a client's loop moves one buffered item to the client, or on a drained closed channel writes the last drop marker, if lines were dropped, and the end event, with a failed payload when none was recorded |
| `Sse.Broker.EndedSawASuffix` | mission-control/controld/sse.go:173-196 | what a client that saw the end event has written is an exact gapped copy of a suffix of everything published |
| `Sse.Broker.ConnectedSeesASuffix` | mission-control/controld/sse.go:56-128 | so is what a connected client has written, still has queued and is owed as a drop |
| `Sse.Broker.KeptUpSawEverything` | mission-control/controld/sse.go:64-95 | a client whose buffer was never full when a line came has, written or queued, exactly the published lines from its first replayed one on, with no marker |
| `Engine.RunKeyInjective` | mission-control/controld/engine.go:157 | slots are per system and target when system names hold no NUL |
| `Engine.RunKeysCollideIff` | mission-control/controld/engine.go:157 | two different systems can share a slot, for some targets, if and only if one's name continues the other's after a NUL |
| `Engine.OnePerTarget` | mission-control/controld/engine.go:161-189 | at most one action that has not released its slot per system and target |
| `Engine.RecordsAreRunningAndRecent` | mission-control/controld/engine.go:355-365 | the record map is exactly the slot holders and the last recordsMax finalized ids; a running record is never evicted |
| `Engine.FinishedOnce` | mission-control/controld/engine.go:367-376 | a finished action was handed to the store exactly once, with its final record, and its broker closed exactly once with the matching payload |
| `Engine.Engine.StartAction` | mission-control/controld/engine.go:161-199 | refused, conflicting with the id that holds the slot, or started with a fresh running record; a refused or conflicting start changes nothing |
| `Engine.Engine.Release` | mission-control/controld/engine.go:355-365 | frees the slot, appends to the finished ids and evicts the oldest beyond the cap, keeping the invariant under any interleaving |
| `Engine.Engine.Finalize` | mission-control/controld/engine.go:342-376 | the four sub-steps in a row end with the given outcome recorded, the slot free, one store attempt and one end event |
| `Engine.Engine.Lookup` | mission-control/controld/engine.go:378-383 | finds an id exactly when it holds its slot or is among the last recordsMax finalized |
| `Fifo.LastNAppend` | mission-control/controld/engine.go:360-364 | keeping the last n after each append is keeping the last n of the whole history |
| `Fifo.EvictSplits` | mission-control/controld/sessions.go:200-204 | evicting the oldest beyond the cap leaves exactly the last n |
| `SessionLog.ReplayMatches` | mission-control/controld/sessions.go:134-223 | folding the event log with the cap rebuilds the open session and the last closedMax closed ones, each with the title, times, notes and outcomes the log tells of it |
| `SessionLog.AtMostOneOpen` | mission-control/controld/sessions.go:144-152 | at most one retained session is open, and it is the one the recorder calls open |
| `SessionLog.StoryTells` | mission-control/controld/sessions.go:134-223 | a session's story has the title and time of its opening, exactly its notes and outcomes in the order of the log, and an end exactly if it was closed |
| `SessionLog.OpenIsUnclosed` | mission-control/controld/sessions.go:144-195 | the open session is the one opened and not closed since |
| `SessionLog.ClosedInOrder` | mission-control/controld/sessions.go:195-205 | the closed ids are the closings in the order they happened |
| `Sessions.Recorder.Open` | mission-control/controld/sessions.go:134-156 | rejections by title and by an open session, with its id; a rejected call changes neither memory nor log; memory stays the fold of the log |
| `Sessions.Recorder.Patch` | mission-control/controld/sessions.go:172-209 | not found, or already closed, exactly in those cases, and then nothing changes, note included; otherwise the log grows by the note, unless blank, and the close, in that order |
| `Sessions.Recorder.RecordOutcome` | mission-control/controld/sessions.go:214-223 | goes to the open session and the log, or nowhere when none is open |
| `Sessions.Recorder.Summary` | mission-control/controld/sessions.go:227-303 | for exactly the retained sessions: each run started between the session's start and its end, or now, each outcome and each note as often as recorded and nothing else, by ascending time, equal times in the order actions, outcomes, notes and within each as recorded |
| `Timeline.TimelineTells` | mission-control/controld/sessions.go:246-282 | that holds of any time-ordered, stable arrangement of what happened |
| `Sorting.StableSortFrom` | mission-control/controld/sessions.go:282 | the stable sort in positions: ascending by key, and by original position where keys are equal |
| `Sorting.StableSortSorts` | mission-control/controld/sessions.go:282 | sorting keeps every item, orders by time and keeps the order within an instant |
| `Sorting.StableSortUnique` | mission-control/controld/sessions.go:282 | two ordered lists that agree instant by instant are equal, so any stable sort gives that same timeline |
| `Refresh.ExchangedIff` | auth-service/src/domain/services/AuthService.ts:103-137 | a token is exchanged if and only if it ends the chain of an unrevoked, unexpired session of an active user, and then exactly that row rotates |
| `Refresh.ReplayRevokes` | auth-service/src/domain/services/AuthService.ts:160-183 | the token just rotated out revokes its live chain, leaves all other rows alone and is audited with the user |
| `Refresh.OlderIsInert` | auth-service/src/domain/services/AuthService.ts:160-167 | older, unknown and invalid tokens are rejected with no change to sessions or audit log |
| `Refresh.RevokedCurrentIsRejected` | auth-service/src/domain/services/AuthService.ts:112-115 | the last token of a revoked chain is rejected and audited without a user |
| `Refresh.ReachableInv` | auth-service/src/domain/repositories/SessionRepository.ts:34-99 | in every serialised run rows end their chains, every jti has one place, and the exchanged ones are all but the last of each chain |
| `Refresh.IssuedOnce` | auth-service/src/domain/repositories/SessionRepository.ts:34-51 | all issued refresh jtis of a run are distinct |
| `Refresh.ExchangedOnce` | auth-service/src/domain/services/AuthService.ts:103-137 | each jti is exchanged at most once, and exactly those followed by another were |
| `Refresh.RevokedForEver` | auth-service/src/domain/repositories/SessionRepository.ts:93-99 | a revoked chain stays revoked and none of its jtis is ever exchanged again |
| `Refresh.LogOutRevokes` | auth-service/src/domain/services/AuthService.ts:139-154 | logging out with the last token of a live chain revokes that chain, at that time, and does nothing else |
| `Refresh.LogOutElseIsInert` | auth-service/src/domain/services/AuthService.ts:139-154 | logging out with no token, an unknown, superseded or already revoked one changes nothing |
| `Refresh.LoggedOutForEver` | auth-service/src/domain/services/AuthService.ts:139-154 | after a logout the chain stays as it is and none of its tokens is exchanged, in whatever follows |
| `Auth.AuthService.Login` | auth-service/src/domain/services/AuthService.ts:27-77 | unknown, locked, inactive, wrong password, logged in, in that order of checks; a wrong password counts one failure and locks from the allowed number on, a login clears both and opens one session row, anything else changes nothing |
| `Auth.AuthService.RefreshTokens` | auth-service/src/domain/services/AuthService.ts:103-137 | each call is the machine's refresh step; tokens exactly when the token was exchanged, expired or unavailable only for a live row of that token, otherwise invalid |
| `Auth.AuthService.HandlePossibleReuse` | auth-service/src/domain/services/AuthService.ts:160-183 | revocation and audit entry of a possible replay, in all four cases |
| `Auth.AuthService.Logout` | auth-service/src/domain/services/AuthService.ts:139-154 | stamps the unrevoked row whose current token is presented, and nothing else |
| `Auth.SessionRepository.Revoke` | auth-service/src/domain/repositories/SessionRepository.ts:93-99 | sets the revocation time of an unrevoked row only |
| `Lockout.LockoutBound` | auth-service/src/domain/repositories/UserRepository.ts:152-183 | from zero failures, wrong-password checks in [t0, t] number at most logins * (max(attempts, 1) - 1) + max(attempts, 1) + floor((t - t0) / duration), for every sequence of attempts and every positive duration |
| `Lockout.BoundIsReached` | auth-service/src/domain/repositories/UserRepository.ts:161-171 | that bound is met with equality for every policy, any number of logins and any number of lock periods |
| `Lockout.NoDurationNoBound` | auth-service/src/domain/repositories/UserRepository.ts:165-170 | with a duration of zero or less any number of checks fits into one instant, so a positive duration is exactly what the bound needs |
| `Lockout.UserRepository.RecordLoginAttempt` | auth-service/src/domain/repositories/UserRepository.ts:152-183 | the counter survives lock expiry, a failure at or past the limit locks anew, a success clears both, other rows stay |
| `Chunking.GreedyIsOptimal` | graph-worker/graphrag-service/src/core/types/compression.py:22-40 | no ordered partition whose parts are within the bound, single pieces excepted, has fewer parts than the greedy chunks |
| `Chunking.GreedyPacks` | graph-worker/graphrag-service/src/core/types/compression.py:22-40 | the greedy chunks flatten back to the pieces in order and are such a partition |
| `Chunking.Chunk` | graph-worker/graphrag-service/src/core/types/compression.py:22-40 | the loop with its buffer and running length puts out the joined greedy chunks: joined again they are the text, each is within the bound or a single piece, and no way of cutting has fewer |
| `Chunking.JoinedAgain` | graph-worker/graphrag-service/src/core/types/compression.py:28-40 | joining the chunks again gives the joined pieces: no text is lost or reordered |
| `Chunking.PackUnits` | graph-worker/graphrag-service/src/core/types/enrichment.py:17-32 | the loop puts out the joined groups of a greedy packing whose first group has two characters less room: joined again they are the text, each within the target or a single unit, at most one more than any way of cutting |
| `Chunking.PackedPacks` | graph-worker/graphrag-service/src/core/types/enrichment.py:17-32 | these groups keep the units in order and meet the bound |
| `Chunking.PackedWithinOne` | graph-worker/graphrag-service/src/core/types/enrichment.py:22-32 | the packer never uses more than one group above any way of cutting the units in order within the target |
| `Chunking.PackedIsOptimalOutsideMargin` | graph-worker/graphrag-service/src/core/types/enrichment.py:22-24 | it uses the fewest groups whenever the unit after the first group does not fall into the two characters of margin |
| `Chunking.LeadSavesAChunk` | graph-worker/graphrag-service/src/core/types/compression.py:22-40 | a greedy cutting that starts some pieces later saves a chunk exactly when the two cuttings never stand at one piece after equally many chunks |
| `Chunking.PackedIsOptimalIff` | graph-worker/graphrag-service/src/core/types/enrichment.py:22-24 | among all ways of cutting the units within the target the packer's has the fewest groups if and only if no unit is left out in the margin of the first group from which on the cutting one unit ahead stays ahead to the end |
| `Chunking.PackedIsNotOptimal` | graph-worker/graphrag-service/src/core/types/enrichment.py:22-24 | it does happen: units "aa" and "b" with target 5 |
| `Polling.PollAssertions` | scripts/experiments/run.py:423-444 | terminates; at most 1 + n + floor(m / interval) rounds for any m >= 0 no timeout exceeds, none for n = 0; each verdict is settled once, repeats its last probe, and a failing one rests on a failing probe in a round begun at or after the deadline, by the clock |
| `Polling.Round` | scripts/experiments/run.py:429-439 | each pending assertion is probed once, settled ones never again, and a due one is settled |
| `Polling.NextSleep` | scripts/experiments/run.py:440-443 | never longer than the interval nor past a pending deadline; a whole interval only while every pending deadline is that far off, else until some pending one is due |
| `Topology.RoutingIsExact` | scripts/rabbitmq/generate-definitions.py:118-186 | for every non-colliding configuration each exchange and key used for work, retry or poison matches exactly one binding, to its own queue |
| `Topology.MainRoutingUnambiguousIff` | scripts/rabbitmq/generate-definitions.py:118-148 | on the main vhost no two bindings share exchange and key if and only if the configuration meets the condition on its names |
| `Topology.QueuesNamedApart` | scripts/rabbitmq/generate-definitions.py:118-186 | no queue name is declared twice: wait and dead-letter queues are nobody else's |
| `Topology.WaitQueuesReturn` | scripts/rabbitmq/generate-definitions.py:134-141 | what expires in a wait queue, after the time its tier says, goes back to its own work queue only, and the wait queue bears the name the worker counts |
| `Topology.StageWaitQueuesReturn` | scripts/rabbitmq/generate-definitions.py:173-180 | the same for the guest's stages |
| `Topology.PipelineQueuesAre` | scripts/rabbitmq/generate-definitions.py:118-144 | a pipeline's work queue has no time to live and dead-letters under the pipeline's key, or for e-mail an hour and the stale key; each wait queue lasts what its tier says and returns to the work exchange; the dead-letter queue keeps its own time |
| `Topology.StageQueuesAre` | scripts/rabbitmq/generate-definitions.py:165-183 | the same for a stage, on its own virtual host |
| `Topology.TiersLastWhatTheySay` | scripts/rabbitmq/generate-definitions.py:45 | each tier's time to live in milliseconds is the duration its name gives |
| `Topology.DroppedWorkIsDeadLettered` | scripts/rabbitmq/generate-definitions.py:123-144 | what a work queue drops, e-mail apart, reaches the pipeline's dead-letter queue and no other |
| `Topology.QueuesInOrder` | scripts/rabbitmq/generate-definitions.py:118-186 | queues come pipeline by pipeline, then the fixed ones, then stage by stage, each block in its order |
| `Topology.WorkerCountsItsWaitQueues` | scripts/rabbitmq/generate-definitions.py:43 | the wait queues the worker counts are those declared for the document pipeline |
| `Topology.StaleEmailIsNotPoison` | scripts/rabbitmq/generate-definitions.py:123-148 | stale e-mail reaches email-expired exactly when it comes from email-tasks, otherwise nothing, never a .dlq, unless another pipeline claims that exchange and key for itself |
| `Topology.DotFreeNamesDoNotCollide` | scripts/rabbitmq/generate-definitions.py:38-70 | names without dots that differ among themselves never collide with derived ones |
| `Topology.ShippedNamesDoNotCollide` | scripts/rabbitmq/generate-definitions.py:39-69 | the repository's pipelines and stages meet that condition |
| `Topology.Builder.Build` | scripts/rabbitmq/generate-definitions.py:101-214 | the generator declares exactly the exchanges, queues and bindings called for, each once, in order, each binding leading to its queue, and with the e-mail pipeline present every binding starts at a declared exchange |
| `Topology.RolesAre` | scripts/rabbitmq/generate-definitions.py:118-186 | every pipeline, stage and fixed role is emitted, and each once |
| `Batching.Worker` | graph-worker/graphrag-service/src/core/types/concurrency.py:68-87 | calls until the first success, at most max(retries, 0) + 1 times; sleeps add up to backoff * (2^k - 1) after k failures; the last call's end is the worker's |
| `Batching.RunConcurrentMap` | graph-worker/graphrag-service/src/core/types/concurrency.py:8-37 | for every completion order output i is input i's value, or the fallback for input i and its error; without a fallback the first failing item in input order is raised |
| `Batching.RunLlmConcurrent` | graph-worker/graphrag-service/src/core/types/concurrency.py:51-98 | output i is that of chunk i's first success within the allowed attempts, or the fallback for its last error; a raised failure had every allowed attempt fail |
| `Batching.RunConcurrentWithTpm` | graph-worker/graphrag-service/src/core/base/stage.py:293-407 | consecutive batches store every document once, in order, with its own result, for every completion order, up to the first failing store; with negative concurrency nothing is stored and success is reported, so everything is stored if and only if there is nothing to do or concurrency is not negative |
| `Batching.RunBatches` | graph-worker/graphrag-service/src/core/base/stage.py:315-376 | the stored prefix after a failing store is exactly the batches before it |
| `Histogram.SearchFloat64s` | guests/hello-guest/internal/metrics/metrics.go:54 | bisection finds the first bound not below the value |
| `Histogram.CumulativeIsAtMost` | guests/hello-guest/internal/metrics/metrics.go:98-102 | the running total up to a bound counts exactly the observations at most that bound |
| `Histogram.Histogram.Observe` | guests/hello-guest/internal/metrics/metrics.go:51-58 | one more observation, counted in its own bucket and added to sum and total |
| `Histogram.Histogram.Render` | guests/hello-guest/internal/metrics/metrics.go:93-107 | every rendered bucket is the number of observations at most its bound; +Inf and count are all of them; sum is their sum |
| `Report.RoundTrip` | scripts/experiments/run.py:474-491 | reading back what was written restores names, verdicts and counts in order, with the trimmed note, or label line, as detail on exactly the failures |
| `Report.VerdictsAgreeIff` | scripts/experiments/run.py:569-580 | the report says passed exactly when the runner exits 0, if and only if anything was reported |
| `Report.WrittenDetail` | mission-control/controld/report.go:145-155 | a written failure's detail is its trimmed note, or the trimmed label line when the note is blank; never empty |
| `Report.DetailIsFirstNotBlank` | mission-control/controld/report.go:145-155 | the detail is the first of message and text that is not blank, trimmed, and the fallback when both are |
| `Report.StepErrorIsShown` | scripts/experiments/run.py:565-575 | a failed step is reported as one failing case called steps that shows the error |
| `Report.ParsedIsStrict` | mission-control/controld/report.go:115-143 | for any document passed means every case passed; a case with any failure, error or skipped child did not, and errors and skips carry a detail |
| `Report.WriteJunit` | scripts/experiments/run.py:474-491 | the writer's loop builds that document: a failure child with note and label line exactly on the failed results, counted |
| `Report.ParseExperimentReport` | mission-control/controld/report.go:115-143 | the reader's loop builds that report: failure before error before skipped decides, only the last is marked skipped, and failed counts the cases not passed |
| `Report.NewestReport` | mission-control/controld/report.go:157-176 | when every modification time can be had, the last of the most recent documents; when none can, the greatest path |
| `Report.AboveIs` | mission-control/controld/report.go:163-168 | the greater path is the one that goes on or has the greater character where they first differ |
| `ProfileCache.Service.GetByID` | api-service/internal/domain/profile/service.go:74-93 | finds exactly the stored profiles, and shows the stored row, or the row without its creation time |
| `ProfileCache.Service.List` | api-service/internal/domain/profile/service.go:95-114 | always the repository's page |
| `ProfileCache.Service.Create` | api-service/internal/domain/profile/service.go:29-72 | stores and caches the new row, with the request's fields and its parts owned by it, and drops list pages; a failing call stores nothing; cache and repository stay coherent |
| `ProfileCache.Service.Update` | api-service/internal/domain/profile/service.go:116-159 | replaces one row in place with its creation time kept, while the cache holds the written profile with no creation time |
| `ProfileCache.Service.Delete` | api-service/internal/domain/profile/service.go:161-170 | removes one row and its cache entry; list pages are dropped |
| `ProfileCache.RemovedRowByRow` | api-service/internal/infrastructure/postgres/profile_repository.go:218-240 | removal takes the rows of that id and leaves the others in order |
| `ProfileCache.Service.Expire` | api-service/internal/infrastructure/redis/cache.go:30-83 | losing any entries at any moment keeps cache and repository coherent |
| `ProfileCache.PagesCover` | api-service/internal/infrastructure/postgres/profile_repository.go:243-271 | consecutive pages put together are the rows in order, nothing skipped or shown twice |
| `Text.DecimalInjective` | graph-worker/graphrag-service/src/worker/idempotency.py:45 | different attempts have different decimal texts |
| `Text.DecimalReads` | graph-worker/graphrag-service/src/worker/idempotency.py:45 | the decimal text of an integer reads back as that integer |
| `Text.TrimSpaceKeeps` | mission-control/controld/report.go:147-154 | trimming never removes a character that is not white space |
| `Text.TrimSpaceCuts` | mission-control/controld/report.go:147-154 | trimming cuts white space off both ends, all of it and nothing else |

## Left out

- The network, SQL, AMQP, Redis, object storage, XML and process execution are abstract stores and steps that may succeed, fail or crash; integer widths are unbounded, and floating point is the reals (no rounding, NaN or infinities).
- JWT signatures, password hashing, UUIDs and random ids: decoded tokens are honest and fresh ids do not repeat. Configuration, HTTP handlers, logging, metrics counters and tracing are not modelled.
- Task envelopes are JSON objects with an object payload. Bodies that are other JSON values, or an empty object (for which the worker publishes no result), are not modelled; an id-less envelope skips the guard and is outside the per-envelope theorems.
- The guard is a table that outlives workers, as the Redis guard is; the in-memory guard is lost with its process. Theorems that name a reliable guard cover runs in which it neither errors nor lets a key lapse.
- No-loss across crashes: the worker takes the guard key before the handler runs (consumer.py:234), so a delivery requeued between that point and the effect of its follow-up publish is later skipped as a duplicate, whereas the comment at consumer.py:208-211 says a requeue keeps the message from being lost. The model follows the code, DeliveryLoss.ResultIffNotAbandoned says exactly which envelopes are affected, and Witnesses.EnvelopeLost is a run that loses one.
- Retry.CountDeaths: an infinite float count, on which int() raises an error the loop does not catch, is not modelled.
- Outbox.Store.RelayOnce: the relay's polling loop, back-off and pending gauge are left out; they only decide when batches are taken.
- Documents.DocumentService.Upload: file type, MIME type and envelope building are yes-or-no facts, and error texts on documents are left out.
- EndToEnd.EveryDocumentSettles: documents deleted while their envelope is under way are allowed, and nothing is claimed about them.
- Sse.Broker.Turn: heartbeats and the text of the events are left out; a disconnecting client is one that takes no more turns and may be unsubscribed.
- Engine.Engine.StartAction: command resolution is an input, and running the command, its output lines and the attached report are left out. Action states are values held by id, so the pointer shared between an engine map and a goroutine is not modelled as aliasing.
- Sessions.Recorder.Patch: sessions are values held by id rather than shared objects; appending to the event file is assumed to succeed, whereas the source only logs an append failure and keeps its memory.
- Sessions.Recorder.Summary: the timeline is a list of items; the markdown around it and the formatting of times are left out, and the run history is whatever list the run store returned.
- Auth.AuthService.RefreshTokens: calls are taken one at a time. Rotation is an unconditional update (SessionRepository.ts:73-91), so two refreshes of one token in flight together are outside the model.
- Auth.AuthService.Login: likewise one call at a time; logins in flight together may check more passwords than the bound says.
- Chunking.Chunk: starts from the non-empty pieces that the regular-expression splitting yields; the splitting itself is left out, as is that of Chunking.PackUnits.
- Polling.PollAssertions: the interval is taken to be positive, as it is by default; a zero or negative setting makes the source poll without pause. What a probe does is left to the environment.
- Topology.Builder.Build: the user, permission and version entries of the definitions file, and the routing table text, are left out.
- Batching.Worker: jitter and the queries-per-second throttle are left out, and the back-off is not negative.
- Batching.RunConcurrentWithTpm: token-per-minute and request throttling only delay calls and are left out; the count of failed documents is left out.
- Histogram.Histogram.Observe: concurrent observers are serialised by the lock, and counts do not wrap around.
- Report.NewestReport: when only some modification times can be had, nothing is claimed about which document wins beyond that it is one of them.
- Report.VerdictsAgreeIff: an empty result list, which definition validation rules out for real experiments, is reported as passed while the runner exits 1; the theorem says so.
- ProfileCache.Service.List: one page size throughout, since cached pages are keyed by page number alone (cache.go:58), and rows with equal creation times are taken to be listed in one fixed order, as are a profile's addresses and contacts. Redis errors are left out: a failed invalidation would leave stale entries.
- The status page, routers, chat and ingest tools, language-model agents, drift, reaper and notifier scripts, and experiment definition checks would add only plumbing or single-branch members.
