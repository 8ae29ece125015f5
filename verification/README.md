# Verified model of the event observability platform

The platform accepts webhooks over HTTP, stores each as a row in PostgreSQL, announces it on a Kafka
topic, and lets workers process it, with retries and a dead-letter topic; processed events are logged
to ClickHouse, where a materialized view counts them by day. A resilient HTTP client with retries,
backoff and a circuit breaker serves outbound calls. This project models that behaviour in Dafny and
proves what it guarantees over whole runs, and exactly where the guarantees end.

`dafny verify dfyconfig.toml` checks everything.

## How the model is built

**Pipeline** (`Domain`, `Pipeline`, `PipelineInvariant`, `PipelineOnce`, `PipelineSuccess`,
`PipelineColumns`, `PipelineSerial`, `PipelineFinality`, `PipelineLimits`, `PipelineCommits`, `CommitLaws`,
`Delivery`, `Worker`, `WorkerLaws`). Every call to PostgreSQL, ClickHouse or Kafka is one atomic step that either takes effect or
fails without effect; steps of any number of requests and workers interleave. A *carrier* is one copy of
a message together with whatever holds it (the ingesting request, a topic, a worker, the dead-letter
handler). `Pipeline` has no commits: any message that was ever handed out may come again at any time,
which is more than the broker does, so what holds of all its runs holds of the real ones.
`PipelineCommits` adds the broker's records and their commits: a record is delivered again only while it
is fetched and not committed, and it is committed only once a process is done with it. `RunIsARun` shows
that each of its runs is one of `Pipeline`; what depends on a message coming again is proved in it.
Clock readings are whatever the called machine reads. `Worker` holds the services as classes whose
methods change their fields call by call; their contracts are stated through `Delivery.Handle` and
`Delivery.Deliver`, the calls of one carrier taken in turn, and `DeliveryIsARun`,
`ProcessorRunsTheSteps`, `RunRunsTheSteps`, `IngestRunsTheSteps` and `BurialRunsTheSteps` tie them to runs of
the interleaved system. `WorkerLaws` reads the same effects column by column, without carriers and stages. Below, M is `max(1, maxRetries)` (`Domain.LastAttempt`).

**Outbound client** (`Breaker`, `Retry`, `Client`, `ClientLaws`). `CircuitBreaker` is a class with
the source's fields and a ghost history of its calls; `Next`, `From` and `After` say what a history
leaves behind, and the laws are about histories. `HttpClient.Do` is the retry loop, proved against
`LoopTrace`; `ClientLaws.Session` is any sequence of calls on one client. The environment scripts, for
each attempt, cancellation, the clock and the outcome of the request.

**Idempotency** (`Idempotency`, `WebhookRuns`). Both stores and the webhook handler as classes, and a
step system in which `Get`, insert, taking the expiry time, and `Set` of concurrent requests interleave.

**Statistics** (`DailyStats`, `PipelineStats`). Log rows enter the summing table block by block through
the view; merges add up rows of one group, and rows may be reordered, at any time; the query filters,
regroups and sorts whatever parts it finds.

## What the proofs show about the code

- Without redelivery the status of an event only ever follows pending, processing, processed or
  pending, failed (, failed), although no SQL statement guards a status change.
- When no call fails, no process crashes and nothing is redelivered, a run that has come to rest has
  processed every event with exactly one analytics row (`EverythingIsProcessed`).
- With redelivery neither `processed` nor `failed` is final. `PipelineFinality` says exactly when they are,
  over every run: a processed event stays processed if and only if no later answered call of one of its
  copies is the processing mark of a copy that read the row before, the failed mark of a last attempt, or
  the mark of a dead letter (`ProcessedStaysIff`); a failed one if and only if none is a processing or
  processed mark (`FailedStaysIff`). Runs from the start, for every retry limit and with commits, show the
  losses: two overlapping deliveries in which no call fails lose `processed` (`AnsweredRunLosesProcessed`),
  and two of the last attempt lose `failed` (`RunLosesFailed`). Both statuses are final when no two
  deliveries of one event overlap and neither reading a row nor writing the failed status fails
  (`TerminalForever`).
- What is left to happen to an event is decided by its commits and copies. Some continuation has it failed
  if and only if it is failed already, one of its fetched records is not committed, or one of its copies is
  live and not past its processing mark (`CanFailIff`). No continuation changes anything of it if and only
  if all its fetched records are committed and all its copies have ended (`FrozenIff`). `CommitDecides`
  shows both for one processed event, before and after its commit.
- A dead letter may belong to an event that is not failed: `DeadLetterOfPending` is a run without
  redelivery, `DeadLetterStaysFailedIff` the exact condition over all runs.
- A message whose retry or dead-letter publish fails is committed all the same and lost. In every run a
  fetched message is lost if and only if its row could not be read, or was read open and could not be
  marked, and the publish that ends its delivery is not answered (`FetchedIsLostIff`). `LostForGood` is a
  run after which nothing can change the pending event.
- The repository's README says that failed messages go to `events.retry`. The code publishes them to the
  events topic (internal/app/processor/processor.go:147), and so does the model.
- No analytics row ever carries the status `processed`: the row is a snapshot taken before.
- The repository's README promises that duplicates within the time to live are absorbed. Under any
  interleaving a request is replayed if and only if, at its `Get`, the store holds an entry of its key
  that covers that time (`WebhookRuns.ReplayedIff`). So duplicates get through in two ways. Requests whose
  `Get` runs before the first `Set` may all be accepted, even when every call is answered
  (`OverlappingDuplicates`). And an expired entry is neither returned nor replaced, so from then on the key
  is not protected again (`ExpiredIsAccepted`, `ExpiredDuplicates`).
- With the default settings (three retries, five failures) a backend that answers every request with a
  retryable status never trips the breaker, because the last attempt is recorded as a success; transport
  errors trip it after five requests (`DefaultSettings`).
- The backoff ceiling is exact on every platform for exponents up to 36 and for no other exponent; beyond
  it never exceeds the cap, but may be negative, and then drawing a delay panics (`DrawsEverywhereIff`).
- `Do` dereferences a missing response exactly when `maxRetries` is negative.

## Model

| member | source | states |
|---|---|---|
| PipelineInvariant.Reachable | internal/infra/storage/postgres/event_repository.go:84-119 | in every run: `processed_at` is set exactly on processed rows, pending is never re-entered, retry counts account for every failed delivery, attempts lie in 1..M and dead-letter messages carry exactly M |
| PipelineInvariant.AnalyticsDatedByTheWrite | internal/infra/storage/clickhouse/event_writer.go:36-56 | every row a run adds to analytics comes from one answered write: event, source, type and status are those of the snapshot it read, which was pending or processing, `processed_at` is the clock of the write and the date the midnight of that UTC day |
| PipelineColumns.RowsTellTheRun | internal/infra/storage/postgres/event_repository.go:26-119 | in every run, every column of a row is told by the steps: key, source and type by its insert, status by the last answered status write, `processed_at` by the clock of that write if it was the processed mark, retry count by the failed deliveries whose increment was answered |
| PipelineColumns.ProcessedAtIsTheMark | internal/infra/storage/postgres/event_repository.go:84-88 | in every run a processed row has as `processed_at` the clock of the last answered processed mark of a copy of its event |
| PipelineColumns.LogRowsTellTheirEvent | internal/infra/storage/clickhouse/event_writer.go:49-56 | in every run each analytics row carries the source and the type of its event |
| PipelineColumns.LogRowsOfAnEvent | internal/core/usecase/process_event.go:60-75 | in every run an event has at most one analytics row more than the run has redeliveries of it on the events topic, counted over the steps |
| PipelineColumns.CountsTellTheRun | internal/app/processor/processor.go:59-82 | the inserts and redeliveries other results count are those among the steps of the run |
| PipelineInvariant.Conservation | internal/app/processor/processor.go:73-81 | on every run inserts plus redeliveries from either topic equal the copies on the two topics, those held by a process, and those ended, by reason |
| PipelineInvariant.AnalyticsRowsPerEvent | internal/core/usecase/process_event.go:60-75 | under any interleaving an event has at most one analytics row more than it had redeliveries on the events topic; dead-letter redeliveries never add one |
| PipelineInvariant.Drains | internal/core/usecase/process_event.go:83-90 | a run makes at most 8M + 1 handling steps per insert and redelivery, and is at rest exactly when no copy is left on a topic or in a process |
| PipelineOnce.StatusLifecycle | internal/core/usecase/process_event.go:43-91 | without redelivery every status history is one of the five lifecycles, and failed appears only after M failed deliveries |
| PipelineOnce.OneCopyPerEvent | internal/core/usecase/ingest_event.go:56-73 | without redelivery an event never has two copies of its message |
| PipelineOnce.RetryCountFollowsAttempt | internal/core/usecase/process_event.go:78-90 | without redelivery retry count plus lost increments never exceeds M for any event, is attempt - 1 while the message is on the events topic, and is exactly M from the last failed attempt on: before, on and after the dead-letter topic, lost on the way to it, handled, or crashed there |
| PipelineOnce.FateOfAnEndedCopy | internal/app/processor/processor.go:139-164 | without redelivery the way a copy ended determines the final status: pending if lost before a topic, processed or processing if done, failed or pending if dead-lettered |
| PipelineOnce.WrittenAtMostOnce | internal/core/usecase/process_event.go:60-69 | without redelivery an event has at most one analytics row |
| PipelineSuccess.EverythingIsProcessed | internal/core/usecase/process_event.go:43-76 | when no call fails, no process crashes and nothing is redelivered, a run at rest has every event processed, with retry count 0 and exactly one analytics row, whatever interleaved |
| PipelineSerial.DeadLettersAreFailed | internal/core/usecase/process_event.go:83-88 | when no two deliveries of one event overlap, with any redeliveries and crashes, every dead-letter message belongs to a failed event |
| PipelineSerial.TerminalForever | internal/core/usecase/process_event.go:52-54 | in such runs, once a row is processed or failed the rest of the run changes no column of it |
| PipelineSerial.DeliveryToTerminalIsIdle | internal/core/usecase/process_event.go:52-54 | delivering a message of a processed or failed event changes no row, topic or analytics table |
| PipelineFinality.StatusKeptIff | internal/infra/storage/postgres/event_repository.go:78-103 | in every run, an event keeps a status from some step to the end if and only if no later step is an answered call of one of its copies that writes another status |
| PipelineFinality.ProcessedStaysIff | internal/core/usecase/process_event.go:43-87 | in every run a processed event stays processed if and only if no later answered call of one of its copies marks processing, marks failed on the last attempt, or marks a dead letter |
| PipelineFinality.FailedStaysIff | internal/core/usecase/process_event.go:52-73 | in every run a failed event stays failed if and only if no later answered call of one of its copies marks processing or processed |
| PipelineFinality.DeadLetterStaysFailedIff | internal/core/usecase/process_event.go:83-88 | in every run a dead-lettered event is failed from the mark before the publish to the end if and only if that mark was answered or came to a failed row, and no later call undoes it as above |
| PipelineFinality.FetchedIsLostIff | internal/app/processor/processor.go:139-164 | in every run, a message fetched at one step whose delivery ends at another is lost if and only if its row could not be read, or was read open and could not be marked, and the ending step is an unanswered publish; it is passed on if and only if that publish is answered |
| PipelineLimits.BlindRedeliveryFails | internal/core/usecase/process_event.go:44-50 | from any state, redelivering a last-attempt message whose row cannot be read marks the event failed |
| PipelineLimits.MessageCanBeLost | internal/app/processor/processor.go:147-163 | for every retry limit, a run without crash or redelivery that comes to rest with an event still pending |
| PipelineLimits.DeadLetterOfPending | internal/core/usecase/process_event.go:83-88 | for every retry limit, a run without redelivery that leaves a message on the dead-letter topic whose event is pending |
| PipelineCommits.RunIsARun | internal/app/processor/processor.go:63-80 | every run with records and commits is a run of the pipeline with the same rows, copies and analytics |
| PipelineCommits.ReachedIsOk | internal/app/processor/processor.go:63-80 | after every run each live copy is a delivery of its record, fetched records were handed out, committed ones handled and handled ones fetched, and the invariants of `Reachable` hold: all that `CanFailIff` and `FrozenIff` ask of a state |
| CommitLaws.CanFailIff | internal/app/processor/processor.go:73-80 | after any run, some continuation has an event failed if and only if it is failed, or one of its fetched records is uncommitted, or one of its copies is live and not past its processing mark |
| CommitLaws.FrozenIff | internal/app/processor/processor.go:73-80 | after any run, no continuation changes the row, history or analytics rows of an event if and only if all its fetched records are committed and all its copies have ended |
| CommitLaws.SettledForGood | internal/app/processor/processor.go:73-80 | after a run without crash, whatever failed or came again, that is at rest with every handled record committed, no continuation changes any event |
| CommitLaws.RecordMoves | internal/app/processor/processor.go:63-80 | a record is fetched by a fetch of one of its deliveries, handled by the call that ends one, committed by its commit, and changed by nothing else |
| CommitLaws.CrashKeepsRecord | internal/app/processor/processor.go:63-80 | a process may crash between any two calls, which changes no table and leaves a record it alone was handling to be delivered again |
| CommitLaws.CommitDecides | internal/app/processor/processor.go:73-80 | for every retry limit, a run to a processed event that can still fail, and that cannot change any more once the handled records are committed and all else is the same |
| CommitLaws.OverlapLosesProcessed | internal/core/usecase/process_event.go:52-73 | after any run, while a record of an open event is fetched and uncommitted, two overlapping deliveries with every call answered take the event to processed and back to processing |
| CommitLaws.AnsweredRunLosesProcessed | internal/core/usecase/process_event.go:52-73 | for every retry limit, such a run from the start, without a failed call or a crash |
| CommitLaws.OverlapLosesFailed | internal/core/usecase/process_event.go:44-58 | after any run, while a last-attempt record of an open event is fetched and uncommitted, two overlapping deliveries take the event to failed and back to processing |
| CommitLaws.RunLosesFailed | internal/core/usecase/process_event.go:44-58 | for every retry limit, such a run from the start |
| CommitLaws.LostForGood | internal/app/processor/processor.go:147-163 | for every retry limit, a run without crash after whose commits no continuation changes a pending event |
| Delivery.DeliverBySteps | internal/core/usecase/process_event.go:43-91 | the whole effect of one uninterrupted delivery, case by case: row, message, analytics |
| Delivery.HandleEnds | internal/core/usecase/process_event.go:15-19 | the use case ends done, or asks for a retry or a dead letter, of the same message |
| Delivery.DeliveryIsARun | internal/app/processor/processor.go:84-137 | fetching and delivering a message without interference is a run of the interleaved system with exactly that effect |
| Delivery.StaysProcessedIff | internal/core/usecase/process_event.go:44-50 | one uninterrupted delivery leaves a processed event processed if and only if the row is read, or attempts remain, or the failed status is not written |
| Delivery.DeadLetterIsFailedIff | internal/core/usecase/process_event.go:83-88 | one uninterrupted delivery keeps a failed event failed, and if it dead-letters its message leaves the event failed exactly when it was or the status was written |
| Delivery.DoneMeansProcessedIff | internal/core/usecase/process_event.go:71-75 | a delivery reported done has processed an open event exactly when the last status write succeeded |
| Delivery.LostIff | internal/app/processor/processor.go:139-164 | where one uninterrupted delivery takes its message: lost if and only if the delivery fails and the publish fails too |
| Worker.EventRepository.Insert | internal/infra/storage/postgres/event_repository.go:26-55 | adds the row unless the id exists or the database fails, and changes nothing else |
| Worker.EventRepository.FindByID | internal/infra/storage/postgres/event_repository.go:57-76 | the row, not found, or unavailable |
| Worker.EventRepository.UpdateStatus | internal/infra/storage/postgres/event_repository.go:78-103 | sets status and `processed_at` of that row unconditionally: the clock reading for processed, null for any other status; reports a missing row |
| Worker.EventRepository.IncrementRetry | internal/infra/storage/postgres/event_repository.go:105-119 | adds one to that row's retry count; reports a missing row |
| Worker.EventWriter.WriteEvent | internal/infra/storage/clickhouse/event_writer.go:27-69 | appends one log row for the snapshot, with its columns, dated by the midnight of its `processed_at` or else of the clock |
| Worker.Broker.Publish | internal/infra/messaging/producer.go:34-64 | appends the message to the named topic, or fails and appends nothing |
| Worker.ProcessEvent.Execute | internal/core/usecase/process_event.go:43-76 | rows, analytics, action, error and source are those of the carrier's calls taken in turn, which `WorkerLaws.HandledMeans` gives column by column |
| Worker.ProcessEvent.HandleFailure | internal/core/usecase/process_event.go:78-91 | the same from the failed call on |
| Worker.DeliveredByAction | internal/app/processor/processor.go:115-136 | what each action adds to which topic |
| Worker.Processor.ProcessMessage | internal/app/processor/processor.go:84-137 | has the effect of exactly one delivery, and moves the two counters exactly when it should; an unparseable message changes nothing |
| Worker.Processor.PublishRetry | internal/app/processor/processor.go:139-152 | the message with the next attempt goes to the events topic |
| Worker.Processor.PublishToDLQ | internal/app/processor/processor.go:154-164 | the message goes unchanged to the dead-letter topic |
| Worker.Processor.Run | internal/app/processor/processor.go:59-82 | handles the fetched messages in order, with the effect, the counters and the commits of one after another; an unparseable message is only committed |
| Worker.DLQHandler.Run | internal/app/processor/dlq.go:37-97 | marks the event of every parsed dead letter failed, in order, and commits every fetched one |
| Worker.BuriedMeans | internal/app/processor/dlq.go:81-86 | however many dead letters it handles, the handler leaves failed exactly the events it could mark, and changes nothing else |
| Worker.IngestEvent.Execute | internal/core/usecase/ingest_event.go:45-74 | inserts one pending row with the request's key, source and type and announces it once with attempt 1; a failed insert is reported and changes nothing, a failed publish is not reported |
| Worker.ProcessorRunsTheSteps | internal/app/processor/processor.go:113-136 | what the processor does with a message is a run of the step system on the same rows, analytics and topics |
| Worker.IngestRunsTheSteps | internal/core/usecase/ingest_event.go:56-73 | an accepted ingestion is the steps insert and publish |
| Worker.BurialRunsTheSteps | internal/app/processor/dlq.go:81-86 | handling a dead letter is the steps fetch and mark |
| WorkerLaws.HandledMeans | internal/core/usecase/process_event.go:43-91 | the use case's effect on the tables and its action for any message and any answers, column by column, also when the row is missing |
| WorkerLaws.DeliveredMeans | internal/app/processor/processor.go:113-164 | one whole delivery: that effect, then the next attempt on the events topic or the same message on the dead-letter topic if the publish is answered |
| WorkerLaws.CountersMean | internal/app/processor/processor.go:115-136 | the success counter moves exactly when the use case ends done on an open event with a source, the failure counter exactly when it asks for a dead letter |
| WorkerLaws.CommittedInOrder | internal/app/processor/processor.go:73-80 | over any fetches, every fetched message whose commit succeeds is committed, parsed or not and whatever became of it, in fetch order, and nothing else |
| WorkerLaws.RunRunsTheSteps | internal/app/processor/processor.go:59-82 | a `Run` over any fetches is a run of the step system in which each parsed message is fetched and delivered once, in order, with the same tables after each fetch |
| WorkerLaws.AnsweredRunProcesses | internal/app/processor/processor.go:59-82 | answered deliveries of distinct open events process exactly those rows, each at the clock of its own mark, log each once in order, and change no other row and no topic |
| WorkerLaws.AnsweredRunCounts | internal/app/processor/processor.go:115-136 | such a run counts one success for each event under its source, in order, and no failure |
| WorkerLaws.BlindRunFails | internal/app/processor/processor.go:122-136 | a run that can read no row logs nothing, passes every message on once, and counts one failure for each message of the last attempt |
| Breaker.CircuitBreaker.Allow | internal/infra/outbound/httpclient/breaker.go:67-87 | grants by the state and the time since the last failure; fields and reported changes are those of the history, whose laws are `AllowMeans` and `GrantsIff` |
| Breaker.CircuitBreaker.RecordSuccess | internal/infra/outbound/httpclient/breaker.go:90-107 | fields and reported changes stay those of the history |
| Breaker.CircuitBreaker.RecordFailure | internal/infra/outbound/httpclient/breaker.go:110-130 | fields and reported changes stay those of the history |
| Breaker.CircuitBreaker.Transition | internal/infra/outbound/httpclient/breaker.go:139-150 | changes the state, clears both counters and reports the change; a change to the same state does nothing |
| Breaker.ChangesArePath | internal/infra/outbound/httpclient/breaker.go:139-150 | the reported changes are a chained path from closed to the current state along the four allowed edges |
| Breaker.CountersAreRuns | internal/infra/outbound/httpclient/breaker.go:94-129 | closed: failures is the run of failures since the last success or change, below max(1, MaxFailures); half-open: probes is the run of successes, below max(1, HalfOpenProbes); open: both zero |
| Breaker.StateAfterCall | internal/infra/outbound/httpclient/breaker.go:67-130 | over every history, the state after any further call, in every state: the failure, success or `Allow` that moves it, and no other |
| Breaker.AllowMeans | internal/infra/outbound/httpclient/breaker.go:75-80 | after an `Allow` the breaker is half-open if and only if it was, or it was open and the timeout had passed since the last recorded failure; a fresh half-open has both counters zero, any other `Allow` changes nothing |
| Breaker.Recovers | internal/infra/outbound/httpclient/breaker.go:75-105 | an open breaker asked after the timeout is half-open until max(1, HalfOpenProbes) successes have followed, and then closed with both counters zero |
| Breaker.DefaultRecovery | internal/infra/outbound/httpclient/breaker.go:42-48 | with the default configuration an open breaker grants from 30 s after the last failure on, and the second success closes it |
| Breaker.TripsExactlyAt | internal/infra/outbound/httpclient/breaker.go:116-128 | a failure opens the breaker if and only if it completes a run of max(1, MaxFailures), or the breaker is half-open |
| Breaker.ClosesExactlyAt | internal/infra/outbound/httpclient/breaker.go:101-105 | a success closes a half-open breaker if and only if it completes a run of max(1, HalfOpenProbes) |
| Breaker.GrantsIff | internal/infra/outbound/httpclient/breaker.go:71-86 | an open breaker grants if and only if the timeout has passed since the last recorded failure; any other grants always |
| Breaker.TripUsesItsFailures | internal/infra/outbound/httpclient/breaker.go:117-121 | every trip from closed ends a closed stretch with max(1, MaxFailures) failures and no success |
| Breaker.RecoveryUsesItsSuccesses | internal/infra/outbound/httpclient/breaker.go:101-105 | every recovery ends a half-open stretch with max(1, HalfOpenProbes) successes and no failure |
| Breaker.TripsArePaidFor | internal/infra/outbound/httpclient/breaker.go:116-121 | over every history, trips from closed times max(1, MaxFailures), plus the failures counted now, are at most the failures recorded: no failure serves two trips |
| Breaker.RecoveriesArePaidFor | internal/infra/outbound/httpclient/breaker.go:101-105 | over every history, recoveries times max(1, HalfOpenProbes), plus the probes counted now, are at most the successes recorded |
| Breaker.OpeningsSpaced | internal/infra/outbound/httpclient/breaker.go:75-80 | with a monotone clock the k-th opening after another comes at least k timeouts later |
| Breaker.OpeningRate | internal/infra/outbound/httpclient/breaker.go:75-80 | a window of length T holds at most 1 + T / OpenTimeout openings |
| Client.HttpClient.Do | internal/infra/outbound/httpclient/client.go:88-162 | makes exactly the breaker calls and requests of its trace and returns its result; what that is, `DoFollowsRetryRule` and `EachOutcomeIsTold` say on outcomes and attempts |
| ClientLaws.DoFollowsRetryRule | internal/infra/outbound/httpclient/client.go:101-161 | one request per attempt up to the first outcome that is neither a transport error nor 429 nor 5xx and above, or the last attempt, whose outcome is returned; no request after a cancelled delay; refused or cancelled only with a retry due; a missing response is dereferenced exactly for negative `maxRetries` |
| ClientLaws.EachRequestAskedAndRecorded | internal/infra/outbound/httpclient/client.go:116-147 | each request has one granting `Allow` before it and exactly one record after it |
| ClientLaws.EachOutcomeIsTold | internal/infra/outbound/httpclient/client.go:116-147 | in every call, the record after the j-th request is a failure if and only if it brought a transport error, or 429 or 5xx and above before the last attempt, at the time it was recorded |
| ClientLaws.GoodBackend | internal/infra/outbound/httpclient/client.go:146-161 | against a backend that only answers with other statuses, every call sends one request and the breaker never leaves closed and counts no failure |
| ClientLaws.DeadBackendRate | internal/infra/outbound/httpclient/client.go:106-148 | against transport errors only, any sequence of calls sends at most max(1, MaxFailures) + T / OpenTimeout requests up to time T |
| ClientLaws.DeadBackendTrips | internal/infra/outbound/httpclient/client.go:122-127 | against transport errors only, the breaker is closed until exactly max(1, MaxFailures) requests were sent, counted across calls, and open afterwards |
| ClientLaws.RetryableOnlyTripsIff | internal/infra/outbound/httpclient/client.go:136-147 | a call answered by retryable statuses only keeps a closed breaker closed throughout if and only if maxRetries < max(1, MaxFailures) |
| ClientLaws.RetryableOnlyNeverTrips | internal/infra/outbound/httpclient/client.go:136-147 | under that condition no sequence of such calls ever leaves closed, each sends maxRetries + 1 requests, and each ends with no failures counted |
| ClientLaws.DefaultSettings | internal/infra/outbound/httpclient/client.go:42-50 | with the default configuration, retryable statuses only never open the breaker, at four requests a call, and transport errors only open it at exactly the fifth request |
| Retry.RetryableCodes | internal/infra/outbound/httpclient/retry.go:16-22 | exactly 429 and every code from 500 on are retried |
| Retry.CeilingExactIff | internal/infra/outbound/httpclient/retry.go:26-31 | the int64 ceiling equals the mathematical one on every platform if and only if the exponent is at most 36 |
| Retry.CeilingRange | internal/infra/outbound/httpclient/retry.go:10-31 | the ceiling is positive and at most 30 s: 100 ms times 2^n up to n = 8, then 30 s |
| Retry.TotalBackoff | internal/infra/outbound/httpclient/retry.go:24-35 | r retries, each drawn below the ceiling the code computes on whatever platform, wait at most 100 ms times 2^r - 1 for r up to 9, and 51.1 s + 30 s (r - 9) beyond |
| Retry.BackoffBoundsReached | internal/infra/outbound/httpclient/retry.go:24-35 | those bounds are reached, and the delays that reach them can be drawn on every platform if and only if r is at most 37 |
| Retry.DrawsEverywhereIff | internal/infra/outbound/httpclient/retry.go:26-33 | the argument of the random draw is positive on every platform if and only if the exponent is at most 36 |
| Idempotency.MemoryStore.Get | internal/infra/storage/memory/memory_store.go:20-29 | the entry up to and including its expiry, else nothing |
| Idempotency.MemoryStore.Set | internal/infra/storage/memory/memory_store.go:31-40 | stores under a new key; leaves an existing key alone, expired or not |
| Idempotency.SqlStore.Get | internal/infra/storage/postgres/idempotency_store.go:26-46 | the entry strictly before its expiry, nothing, or an error |
| Idempotency.SqlStore.Set | internal/infra/storage/postgres/idempotency_store.go:48-67 | inserts under a new key, does nothing on conflict, or fails |
| Idempotency.FirstSetStays | internal/infra/storage/memory/memory_store.go:35-38 | a key holds the entry of its first `Set` for the life of the store |
| Idempotency.StoresAgreeIff | internal/infra/storage/postgres/idempotency_store.go:32-35 | after the same sets the two stores answer a `Get` alike if and only if it is not exactly at the expiry, where memory still returns the entry and SQL does not |
| Idempotency.WebhookHandler.HandleEvent | internal/app/http/handler/webhook.go:133-199 | a replay returns the stored id and touches nothing; an acceptance inserts one pending event with the request's columns and, if the key is new and the set succeeds, remembers its id until the stamp plus the time to live; errors change nothing |
| Idempotency.SequentialAcceptances | internal/app/http/handler/webhook.go:133-186 | sequentially, with sets succeeding, a key is accepted once plus once per accepted request whose `Get` ran after the first entry's expiry |
| Idempotency.ReplayedIff | internal/app/http/handler/webhook.go:143-155 | requests one after another: once a key has an entry, any later request of the session is replayed, with that entry's id, if and only if its `Get` succeeds no later than that entry's expiry |
| WebhookRuns.ReplaysAgree | internal/app/http/handler/webhook.go:143-186 | under any interleaving all replays of a key return one event id, inserted with that key |
| WebhookRuns.AcceptedEventsDiffer | internal/app/http/handler/webhook.go:158-170 | accepted requests never share an event |
| WebhookRuns.AcceptancesBounded | internal/app/http/handler/webhook.go:133-186 | acceptances of a key whose `Get` ran no later than the entry's expiry number at most the `Get`s before the first successful `Set` |
| WebhookRuns.EntryNeverChanges | internal/infra/storage/postgres/idempotency_store.go:57-60 | no continuation of a run changes an entry once it is there |
| WebhookRuns.ReplayedIff | internal/app/http/handler/webhook.go:143-155 | under any interleaving a request whose `Get` succeeds ends as a replay of an event if and only if, at that `Get`, the store holds an entry of its key that names the event and covers the time |
| WebhookRuns.ExpiredIsAccepted | internal/infra/storage/postgres/idempotency_store.go:57-60 | after any run, a request whose `Get` runs after its key's entry expired is accepted as a new event and leaves the entry as it was |
| WebhookRuns.ExpiredDuplicates | internal/app/http/handler/webhook.go:143-186 | for every positive time to live, three requests of one key, the third at the instant of the second, are accepted as three events |
| WebhookRuns.OverlappingDuplicates | internal/app/http/handler/webhook.go:143-186 | after any run, two overlapping requests of a key without entry are both accepted, every call answered, at an instant the stored entry covers |
| WebhookRuns.RequestIsARun | internal/app/http/handler/webhook.go:133-199 | what the handler does uninterrupted is a run of the interleaved system, with the same answer and store |
| DailyStats.TableSums | migrations/clickhouse/002_create_daily_stats.sql:3-23 | whatever merges happened, the parts sum to the inserted log rows over any set of groups |
| DailyStats.TablePositive | migrations/clickhouse/002_create_daily_stats.sql:10-11 | no row of the table counts zero, so no merge drops one |
| DailyStats.RegroupMeans | internal/infra/storage/clickhouse/event_querier.go:38-47 | regrouping is strictly sorted and keeps the groups and every sum |
| DailyStats.SortedUnique | internal/infra/storage/clickhouse/event_querier.go:46-47 | a strictly sorted answer is determined by its groups and sums |
| DailyStats.QueryCountsTheLog | internal/infra/storage/clickhouse/event_querier.go:38-47 | the answer is strictly sorted, has one row for exactly the logged groups of the inclusive range, and counts each group's inserted log rows |
| DailyStats.QueryCountsColumns | internal/infra/storage/clickhouse/event_querier.go:38-47 | for any date, source and type, the answer has a row with them if and only if the date is in the range and some inserted log row has those values in its own columns, and counts those rows; the answer ascends by date, source, type |
| DailyStats.LogIsTheBlocks | migrations/clickhouse/002_create_daily_stats.sql:15-23 | what the counts are about is every inserted block in order, and nothing else |
| DailyStats.QueryIgnoresMerges | internal/infra/storage/clickhouse/event_querier.go:26-28 | two histories that logged the same rows answer every query alike, however merged and split into blocks |
| DailyStats.QueryTotal | internal/infra/storage/clickhouse/event_querier.go:38-47 | the counts sum to the log rows dated in the range |
| DailyStats.EventQuerier.DailyEvents | internal/infra/storage/clickhouse/event_querier.go:29-72 | scans the whole answer in order, or fails if the query or one scan fails |
| PipelineStats.DailyTotalsAreWrites | internal/infra/storage/clickhouse/event_writer.go:42-66 | over a covering range the daily counts sum to the pipeline's successful `WriteEvent` calls, at most its inserts plus the redeliveries on the events topic |

## Left out

- Partitions and the order of records: records are committed one by one, a commit that covers several is several steps, and an uncommitted record may come again at any time, without a rebalance or restart being a step.
- A call that takes effect although its caller sees an error, such as a publish whose acknowledgement is lost: an error means no effect.
- Wire formats: pipeline messages are taken to parse; an unparseable message is only an input of `Processor.Run` and `DLQHandler.Run`.
- The endless loops of `Processor.Run` and `DLQHandler.Run`: modelled over any finite number of fetches; waiting after a fetch error and shutdown are not modelled.
- The interleaving of method bodies: classes run one method at a time; interleaved calls are steps of `Pipeline` and `WebhookRuns`, and mutexes are modelled as atomic methods.
- Integer widths: retry counts, attempts, breaker counters and `UInt64` sums are unbounded; only the duration arithmetic of the backoff has the source's width.
- Floating point beyond the exactness of 100 ms times 2^n below 2^63: an out-of-range conversion yields an arbitrary value.
- The time a call waits: `Do` takes cancellation and clock readings from its script; delays are bounded separately in `Retry`.
- Response bodies, headers and trace ids; replays are compared by event id.
- Deduplication in `events_log`: the view counts rows when they are inserted, so the statistics count inserted rows, not rows left after that table's own merges.
- Request validation, `ListByStatus`, health, metrics labels, tracing, logging, configuration and wiring: no claim over runs.
- PipelineSerial.DeadLettersAreFailed: for runs in which no two deliveries of one event overlap and row reads and failed-status writes succeed, because the code does not guarantee it otherwise; `PipelineFinality.DeadLetterStaysFailedIff` has the exact condition over all runs.
