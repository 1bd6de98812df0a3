# notify-engine: a verified model of the delivery pipeline

This project models the parts of notify-engine whose correctness depends on how several actors
interleave, or on arithmetic and string handling that is easy to get wrong, and proves what they
do and do not guarantee.

The centre is a step machine (`Pipeline`). Its state is the table of notification rows, the broker's
message copies with their place (ready, unacked, acked, dead-lettered), and the local state of every
actor: running `Create`/`CreateBatch` calls, schedulers in the middle of a poll, workers at each
statement of `processMessage` and `handleFailure`. One event is one database statement, one broker
operation, one call of the limiter or the provider, a cancellation, a tick of the clock, or the loss
of a consumer's connection. A run is any sequence of events; an event its actor cannot take changes
nothing. Database, broker, limiter and provider may answer each event as they please. The results
about runs hold for every run, every number of schedulers and every number of messages; where one
needs that certain reads or writes succeed or that no connection is lost, it says so through history
fields of the state (`readFailed`, `writeFailed`, `markFailed`, `overwritten`, `lost`, `cut`).

The programs themselves are imperative: `Consumer`, `Service` and `Polling` hold `processMessage`,
`Create`, `CreateBatch` and `pollAndPublish` as methods over an `Engine` object, which runs one event
at a time and between any two of them lets the others do anything. Their contracts say what each
program achieves in spite of that. `NotificationRepo`, `RateLimiter`, `Template`, `Migrator`,
`Builder`, `ListRequest` and `Broker` are classes with the source's fields and loops.

| file | what it is about |
|---|---|
| `basics.dfy`, `model.dfy` | stock types, sums; rows and requests |
| `repository.dfy` | the SQL statements, and the transaction of a batch |
| `backoff.dfy` | the retry delay |
| `pipeline.dfy`, `pipeline_frame.dfy` | the step machine; what every step keeps |
| `pipeline_tokens.dfy`, `send_accounting.dfy` | how often workers can hear a notification accepted |
| `retry_bound.dfy`, `tightness.dfy` | how far `retry_count` can go and how often the provider can be called, and runs that reach both |
| `evidence.dfy`, `coupling.dfy`, `row_state.dfy` | what places, statuses and delivery columns prove; what a row says at every moment of its delivery |
| `provenance.dfy` | where messages, statuses, errors and new rows come from |
| `finality.dfy` | when a status is final |
| `publishing.dfy`, `publish_once.dfy` | nothing is forgotten, early, or published twice by one publisher |
| `cancellation.dfy` | when a cancellation is effective |
| `termination.dfy` | bounds on failures and on all work; every message can be settled |
| `idempotency.dfy` | one row per key, agreeing answers, whole batches |
| `system.dfy`, `consumer.dfy`, `service.dfy`, `scheduler.dfy` | the programs |
| `ratelimiter.dfy` | the limiter over timed traces |
| `template.dfy` | rendering |
| `query.dfy` | the filter builder and pages |
| `migrate.dfy` | the migration runner |
| `topology.dfy`, `queues.dfy` | queues, bindings and routing; where every message is |

Where the repository's own documentation says something else, the model follows the code:

- README.md:206 calls the limiter a sliding window. It is a fixed window per second:
  `SlidingBoundIsReached` admits twice the limit in a sliding second.
- README.md:215 lists delays of 5s, 10s and 20s. With at most 3 attempts only the first two occur
  (`DefaultDelays`).
- README.md:216 calls 4xx responses permanent. The code treats every status outside 2xx, 429 and 5xx
  that way, 3xx included (`ProcessMessage`, `BelongsAt`).
- README.md:212 says the idempotency check returns the existing notification. A call that loses the
  race between its check and its insert gets an error instead, because the unique index refuses it;
  answers that are successful agree (`AnswersAgree`).
- The worker's own limit decides when a message is dead-lettered; the row's `max_retries` column is
  never read.

Some things a reader might expect are false of the code. They are stated with the exact condition
under which they hold, and with a run or an input for which they fail:

- `sent`, `failed` and `cancelled` are not final: `FinalIffClosed` says when they are,
  `LateMarkHidesADelivery` is a run that ends otherwise.
- A notification can be accepted more than once per copy even if no connection is lost, because an
  acceptance that the worker does not hear (a timeout, an answer cut short) is retried as a failure:
  `CallsAreBounded` is the ceiling, and `RetryBoundIsReached` reaches it when no write fails.
- A cancellation after publishing does not stop delivery: `CanBeSentIffNotIdle`, and the same run.
- Rendering is not the same for every order of the variable map, nor always the one-pass substitution:
  `SafeTexts` says for which texts it is, given brace-free names and values without an opening brace,
  `SafeAlphabets` says for which names and values it is, given such texts, and
  `StrayBracesDependOnOrder` renders one text in two ways.
- A limiter script that lags more than 100 ms can reset its window: `LagThreshold`.
- The delay is not the capped power once the product overflows: `DelayIsCappedPower`.
- Pages need not add up when timestamps tie across a page boundary: `PagesCompleteIff`. A page number
  can overflow the offset: `RightPageIff`.
- A migration added later with an earlier name is applied out of order: `RecordStaysInOrder`.

## Model

| member | source | states |
|---|---|---|
| Repository.InsertAllAllOrNothing | internal/repository/notification.go:48-73 | a batch transaction commits exactly when no draft collides, by id or by non-null key, with the table or with another draft of the batch |
| Repository.InsertAllAdds | internal/repository/notification.go:64-72 | a committed transaction adds exactly its drafts and leaves every other row as it was |
| Repository.InsertAllKeepsKeysUnique | migrations/001_create_notifications.up.sql:30 | an insert keeps at most one row per non-null idempotency key |
| Repository.NotificationRepo.Create | internal/repository/notification.go:37-46 | one insert reports success exactly when the unique indexes accept it and its commit is confirmed; a row is left exactly when they do and the server committed, which a commit that goes unheard may have done |
| Repository.NotificationRepo.CreateBatch | internal/repository/notification.go:48-73 | the loop of inserts in one transaction: all drafts or none; an error leaves none unless the server committed unheard, and then all |
| Repository.NotificationRepo.GetByIdempotencyKey | internal/repository/notification.go:89-95 | finds a row with the key exactly when there is one |
| Repository.NotificationRepo.UpdateStatus | internal/repository/notification.go:97-111 | writes status and last_error whatever the status was; a message id is replaced only by another and never lost; sent sets sent_at and nothing clears it; no other column, no other row and no row's existence changes; fails only on a missing row |
| Repository.NotificationRepo.IncrementRetry | internal/repository/notification.go:113-117 | retry_count grows by exactly one and last_error is set; no other column and no other row changes; a missing row is no error |
| Repository.NotificationRepo.Cancel | internal/repository/notification.go:119-129 | succeeds exactly on a pending or queued row, of which only the status changes, to cancelled; otherwise nothing changes at all |
| Frame.RunKeeps | internal/repository/notification.go:97-129 | every run only moves forward: row identity fields never change, retry_count and delivery evidence never go back, nothing becomes pending again, acked and dead messages stay so |
| Tokens.SendsAreBounded | internal/queue/consumer.go:150-163 | whatever fails, workers hear a notification accepted at most once per published copy and once more per lost connection |
| SendAccounting.EverySendIsAccountedFor | internal/queue/consumer.go:150-163 | while no copy is lost, the sends whose acceptance a worker heard equal the acked copies plus the workers between that answer and their ack |
| RetryBound.RetryCountIsBounded | internal/queue/consumer.go:116-189 | in every run, with k copies published, l losses and f failed fresh reads, retry_count is at most MaxRetries + 2(k - 1) + l + f, or k + l if MaxRetries is at most 1 |
| RetryBound.CallsAreBounded | internal/queue/consumer.go:116-189 | in every run the provider is called, and so can have accepted the notification, heard or not, at most that often, where each failed status or retry write counts like a failed read |
| RetryBound.EveryCallIsAccountedFor | internal/queue/consumer.go:150-189 | in every run each call of the provider was heard accepted, is in retry_count, is about to be counted, or had a failing write |
| Tightness.RetryBoundIsReached | internal/queue/consumer.go:116-189 | for every MaxRetries, every k of at least 1, every l and (with MaxRetries of at least 2) every f there is a run of k - 1 schedulers with k copies, l losses, f failed reads and no other failure in which retry_count and the calls of the provider are both exactly that bound |
| PublishOnce.RetryCountInProduction | internal/queue/scheduler.go:65-73 | with S schedulers whose marks succeed, both bounds are those for S + 1 copies |
| Termination.FailuresArePerMessageBounded | internal/queue/consumer.go:116-208 | a message that was never lost, with working reads and writes, fails at most max(1, MaxRetries) times whatever other copies do |
| Termination.WorkIsBounded | internal/queue/consumer.go:93-208 | when everything works, all workers together take at most 10 * max(1, MaxRetries) steps per message, refusals of the limiter aside |
| Termination.UnsettledCanMove | internal/queue/consumer.go:93-208 | while a message is neither acked nor dead-lettered some worker can still move |
| Termination.EveryMessageSettles | internal/queue/consumer.go:93-208 | every run in which everything works can be carried on by the workers alone, with everything working, until all messages are acked or dead-lettered; and a run after which no worker can move has them all settled |
| Evidence.SettledCopiesHaveAReason | internal/queue/consumer.go:99-207 | in every run, crashes and failing writes included, an acked message was accepted by the provider; a dead one was undecodable, permanently refused, or failed on its last attempt |
| Evidence.DeliveryEvidenceIsSound | internal/repository/notification.go:97-111 | provider_message_id and sent_at are set together, only by an accepted send and to its id, and are never cleared |
| Provenance.MessagesMatchRows | internal/queue/publisher.go:79-103 | in every run each message of a notification is on the queue of its row's channel and carries a retry count that the row had, none if a creation call published it |
| Provenance.EveryColumnHasACause | internal/queue/consumer.go:121-184 | in every run, whatever fails: a cancelled row was cancelled, a failed one has an error and a call of the provider that failed for good, a sent one has a message id, and last_error is the error of a call for that row |
| Provenance.RowsAppear | internal/service/notification.go:83-102 | a row appears only by the commit of a creation call: pending, untried, without message id, sent_at or error, and dated at that moment |
| Provenance.NewRowsAreDated | internal/repository/notification.go:38-46 | a row that was not there before has a creation time since then |
| Publishing.NothingIsForgotten | internal/repository/notification.go:225-234 | a row that never reached the queue is pending or cancelled with retry_count 0; if it is pending and unscheduled or its time has come, every poll whose limit is at least the number of such rows no younger takes it |
| PublishOnce.NothingIsPublishedEarly | internal/service/notification.go:104-111 | no message of a scheduled notification is queued before scheduled_at |
| PublishOnce.EachPublisherPublishesOnce | internal/queue/scheduler.go:52-73 | with working marks the API publishes a row at most once and each scheduler at most once, so S schedulers and the API together at most S + 1 times |
| Cancellation.CanBeSentIffNotIdle | internal/queue/consumer.go:116-150 | a row no longer pending can still reach the provider exactly when a message, a worker before its send, or a publisher is left for it; its status plays no part |
| Cancellation.CancelledForGood | internal/repository/notification.go:119-129 | a row cancelled before any call, snapshot or message has it stays cancelled, is never published and never sent, in every continuation |
| Coupling.StatusMatchesPlace | internal/queue/consumer.go:121-207 | for a single message never lost with working writes: ready means pending, queued or cancelled (or left sending by a shutdown); acked means sent and dead means failed unless a publisher's mark came later; sent or failed means its worker is done |
| RowState.RowTellsItsStory | internal/queue/consumer.go:121-207 | for a single message never lost with working writes, at every moment: after a publisher's mark or an effective cancellation that no worker's status write has followed the row is queued or cancelled; otherwise it is sending from the write that starts a delivery to the next status write, without an error until a failure is counted and then with that call's; after that it is sent with the message id of the last call, failed with its error, or queued with its error; a settled row was touched exactly if a mark replaced its final status |
| Finality.FinalIffClosed | internal/repository/notification.go:97-111 | in every well-formed state, a row that is sent, failed, cancelled (or left sending) stays so in every continuation exactly when no message of it is ready or unacked, no worker stands before its send or before the write of another status, and no publisher has it left to publish or to mark |
| Coupling.SoleMessageWaitsTheBackoffs | internal/queue/consumer.go:176-194 | a single message's retry_count is its own failures, and it was held back for exactly the delays of those failures, the last one not counted once it is dead-lettered |
| Tightness.LateMarkHidesADelivery | internal/service/notification.go:104-111 | a run with no failure in which a row cancelled after publishing is delivered, acked, and ends up queued |
| Backoff.DelayIsCappedPower | internal/queue/consumer.go:191-194 | the delay is min(60s, base * 2^(r-1)) exactly when the product fits an int64 |
| Backoff.DelaysStayInRange | internal/queue/consumer.go:178-194 | it does for every attempt in use if it does for the last one |
| Backoff.DelayMonotone | internal/queue/consumer.go:191-194 | in range, delays grow with the attempt and stay between 0 and 60s |
| Backoff.OverflowSleepsNothing | internal/queue/consumer.go:191-194 | the timer fires at once exactly when a positive base overflows |
| Backoff.TotalSleptUncapped | internal/queue/consumer.go:191-194 | below the cap the delays of m failures sum to base * (2^m - 1) |
| Backoff.TotalSleptAtMost | internal/queue/consumer.go:192-194 | m failures hold a message for at most a minute each, whatever the base |
| Backoff.DelaysInNanoseconds | internal/queue/consumer.go:191-194 | in plain numbers: from a base of 5s the fifth delay is a minute; from 1ns the 37th to the 63rd are, and the 64th is the least int64 |
| Backoff.DefaultDelays | internal/queue/consumer.go:178-194 | the shipped configuration waits 5s and 10s, 15s in all |
| Idempotency.OneRowPerKey | internal/service/notification.go:56-65 | in every interleaving at most one row has a given non-null key |
| Idempotency.AnswersAgree | internal/service/notification.go:56-65 | any two successful answers for one key name the same row, the one that has it |
| Idempotency.HitsPublishNothing | internal/service/notification.go:137-145 | an item answered with an existing row makes its call publish nothing for that row |
| Idempotency.BatchIsWhole | internal/service/notification.go:130-178 | a batch that returned has one answer per item in order, rejecting exactly the invalid ones, each new id being a row with the item's key, channel and schedule and with the batch's id; a refused one left no row; one whose commit went unheard left all its rows; neither left a message |
| System.OthersKeepLocals | internal/queue/consumer.go:65-68 | no event of another actor changes an actor's local variables or what it has published |
| System.Engine.Interfere | internal/queue/consumer.go:65-68 | any number of events of the others, in any order, keeps that too |
| Consumer.WaitForLimiter | internal/queue/consumer.go:124-142 | the limiter is asked again after every refusal; the loop ends about to send, unless a shutdown falls into one of its waits; then it ends about to give the message back |
| Consumer.HandleFailure | internal/queue/consumer.go:167-208 | counts the failure, writes the status and, only before another try, waits, in this order; makes no further call of the provider and, if its nack gets through while it holds the message, leaves it dead-lettered exactly for a permanent error or an exhausted count, else ready |
| Consumer.Deliver | internal/queue/consumer.go:121-165 | from the status write on: unless interrupted, exactly one call of the provider, on record with its answer, and the message settled as that answer demands |
| Consumer.ProcessMessage | internal/queue/consumer.go:93-165 | under any interference, the environment's answers determine the ending and every statement on the way; the provider is called exactly once, with the retry count the fresh read found, or not at all for an undecodable body or a shutdown; the worker hears only 2xx as a delivery, with its message id, and anything else as a failure with its own text; then only 2xx acks the message, 429, 5xx and no response give it back until MaxRetries is reached, and every other status dead-letters it (internal/delivery/provider.go:77-80) |
| Service.LookupNext | internal/service/notification.go:49-76 | one item is rejected, answered with the row of its key, refused, or given a new id, as validation, lookup and template demand; a key taken before is found unless the lookup fails |
| Service.RefusedForAKey | internal/repository/notification.go:64-73 | in every run the insert of a call is refused exactly when a key of a new row is taken or repeated within the call |
| Service.Create | internal/service/notification.go:42-116 | returns a row that has the request's key; a key taken before is answered with its row and publishes nothing; it fails with a validation error only for an invalid request or template, and with an internal one only for a failed lookup, an unconfirmed commit or a lost race for the key; a new row has the request's fields and no batch, was created during the call, and is published on its own channel exactly if that works and it is due; a failed call leaves no row unless its commit went unheard |
| Service.PublishAll | internal/service/notification.go:166-174 | publishes, in order and each on its row's own channel, exactly the inserted rows that are due and whose publish works, marks each of these before the next, and ends the call |
| Service.AnswerItems | internal/service/notification.go:130-160 | counts every item once and appends one result per item, in order and with its index, naming the existing row of every key taken before, and publishes nothing |
| Service.CreateBatch | internal/service/notification.go:118-179 | sizes outside 1..1000 are refused as invalid and without a trace; on success accepted + rejected = results = items, indexes in order, rejected exactly the invalid, new rows created during the call with their items' fields and this batch's id, published exactly the due ones whose publish worked, in order and on their own channels; it fails, with an internal error, only for an unconfirmed commit or a colliding key, always for a repeated one, and then leaves no message, and no row unless the commit went unheard |
| Service.CancelNotification | internal/service/notification.go:196-202 | succeeds exactly on a row pending or queued at that moment, changes only that row's status, and publishes, sends or settles nothing |
| Polling.PendingAnswerExists | internal/repository/notification.go:225-234 | the pending query has an answer for every table, time and limit |
| Polling.PollAndPublish | internal/queue/scheduler.go:52-74 | under any interference a poll publishes, in order and each on its row's own channel, exactly those rows of its query's answer whose publish works, marks each of these before the next, does nothing if the query fails, and is idle again |
| Polling.PollChangesWhatItPublishes | internal/queue/scheduler.go:65-73 | an undisturbed poll queues exactly the rows whose publish succeeded, adds one ready message for each, in order, and leaves everything else as it was |
| Polling.SchedulerDrains | internal/queue/scheduler.go:33-74 | with nothing failing and nothing coming due, polls publish the N rows that are pending and unscheduled or past their time, oldest first and once each, all of them exactly when polls * batchSize reaches N |
| Polling.PublishedInItsTurn | internal/queue/scheduler.go:52-74 | in every run: a stored notification that was not cancelled nor published and whose time has come is published exactly once and queued by a scheduler's next polls, if they work and undisturbed, as soon as they have room for the due rows no younger |
| RateLimiting.RateLimiter.RunScript | internal/ratelimiter/ratelimiter.go:25-37 | the script counts the call in a live window or starts a new one with 1100 ms to live, and admits up to the limit |
| RateLimiting.RateLimiter.Allow | internal/ratelimiter/ratelimiter.go:41-60 | fails exactly if Redis does, else appends the call and its answer to the trace; a denied caller that sleeps for the hint wakes in a later second |
| RateLimiting.EveryCounterIsAWindow | internal/ratelimiter/ratelimiter.go:25-37 | in every trace, late or not, a counter holds exactly the calls of its key since the one that opened its window, and lives until 1100 ms after that one, however many follow |
| RateLimiting.WindowAdmitsItsLimit | internal/ratelimiter/ratelimiter.go:25-48 | with scripts at most 100 ms late, each second of each channel admits exactly min(limit, calls) |
| RateLimiting.AdmittedIffAmongFirst | internal/ratelimiter/ratelimiter.go:25-48 | and it admits exactly the first ones |
| RateLimiting.AlignedIntervalBound | internal/ratelimiter/ratelimiter.go:46-48 | T seconds starting on a second admit at most T * limit |
| RateLimiting.SlidingIntervalBound | internal/ratelimiter/ratelimiter.go:46-48 | any T whole seconds admit at most (T + 1) * limit |
| RateLimiting.SlidingBoundIsReached | internal/ratelimiter/ratelimiter.go:46-48 | for every limit and T some trace without lag reaches that bound |
| RateLimiting.LagThreshold | internal/ratelimiter/ratelimiter.go:29-32 | every trace with scripts at most `lag` late is exact if and only if lag is at most 100 ms, a counter being gone from its expiry millisecond on |
| RateLimiting.DenialsAreBounded | internal/ratelimiter/ratelimiter.go:54-59 | among k requesters of a channel that ask until admitted and obey the hint, none is denied more than floor((k - 1) / limit) times |
| RateLimiting.DenialBoundIsReached | internal/ratelimiter/ratelimiter.go:54-59 | for every limit and k, and without lag, some trace denies a requester exactly that often |
| Templates.ReplaceVariables | internal/model/template.go:22-25 | the loop over the map replaces every variable once, in some order |
| Templates.Template.Render | internal/model/template.go:21-37 | body and subject are each rendered in an order of their own; for brace-free names, values without an opening brace and texts that cannot reopen that is the one-pass substitution |
| Templates.RenderIsSimultaneous | internal/model/template.go:22-25 | under these conditions every order of the map gives the same text: placeholders of known variables replaced at once, all others kept |
| Templates.SafeTexts | internal/model/template.go:22-25 | given brace-free names and values without an opening brace: all orders of all maps render a text alike if and only if it cannot reopen, and then alike means the one-pass substitution; a text can reopen if two opening braces, with at most placeholders between them, are followed by text that replacements can complete to a placeholder of a name still to come |
| Templates.ReplaceIsSubst | internal/model/template.go:24 | on every text, leftmost ReplaceAll of one brace-free placeholder is substitution on its tokens |
| Templates.ScanPrint | internal/model/template.go:20-24 | scanning the text of tidy tokens finds those tokens again |
| Templates.OnePassIsSubst | internal/model/template.go:20-24 | the one-pass reference semantics is simultaneous substitution on tokens |
| Templates.SafeAlphabets | internal/model/template.go:22-25 | over names and values from given alphabets, all orders agree for every text that cannot reopen exactly when names have no brace and values no opening brace, or the empty name is the only one; and exactly then they are the one-pass substitution |
| Templates.StrayBracesDependOnOrder | internal/model/template.go:22-25 | a text that can reopen and that one variable map renders in two ways |
| Querying.BuildWhere | internal/repository/notification.go:131-165 | the built conditions with their numbered arguments keep exactly the rows that meet every filter that is set, and idx is one more than the arguments |
| Querying.ListRequest.Normalize | internal/model/request.go:133-143 | page is at least 1 and size between 1 and 100, by default 20, and values in range are kept |
| Querying.List | internal/repository/notification.go:131-183 | the rows are selected, counted, ordered and cut by the built clause and its numbered arguments; they are the requested page of the matching rows, newest first, as long as the offset fits, and the total is their number |
| Querying.RightPageIff | internal/repository/notification.go:173 | a page request is answered with its own page exactly when the offset fits an int64 or wraps past the end |
| Querying.WrapsToFirstPage | internal/repository/notification.go:173 | a page number whose offset wraps to the first page |
| Querying.PagesAreTheList | internal/handler/notification.go:113-114 | in one order, pages 1 to TotalPages are the filtered list, the last of them is not empty, and later pages are |
| Querying.PagesCompleteIff | internal/repository/notification.go:173-180 | with ties broken anew by each query, the pages show every matching row exactly once for sure if and only if no tie lies across a page boundary |
| Migrations.Migrator.Run | cmd/migrate/main.go:48-91 | a run applies its files in order up to the first whose turn fails or is cut short, and finishes exactly if none is; a commit that goes unheard counts as applied |
| Migrations.FirstDifferenceDecides | cmd/migrate/main.go:39 | file names are ordered by their first difference, and a prefix comes first |
| Migrations.ShippedFiles | cmd/migrate/main.go:34-49 | the repository's two up-files, by their names, are a sorted listing, and their versions are the names without the suffix |
| Migrations.RunAppliesTheRest | cmd/migrate/main.go:48-91 | what it applies and records are exactly the unrecorded files, once each and in order |
| Migrations.DatabaseReplaysItsRecord | cmd/migrate/main.go:34-91 | after any sequence of interrupted runs, over files and texts that may change from run to run, the database is the recorded scripts applied once each in recorded order, and the script of a version is the one found by the first run to get through it |
| Migrations.RecordIsAPrefix | cmd/migrate/main.go:34-91 | over a fixed set of migrations, whatever their texts, the record is the prefix of the sorted list that the furthest run reached |
| Migrations.FurtherRunsChangeNothing | cmd/migrate/main.go:51-59 | once all files are recorded a further run changes nothing |
| Migrations.RecordStaysInOrder | cmd/migrate/main.go:39-91 | the record stays in file order exactly when every newly applied file sorts after everything recorded |
| Topology.Broker.Setup | internal/queue/publisher.go:48-77 | setup succeeds exactly when the two prefixes differ and every queue is new or declared alike before, and then has added each channel's queues and bindings |
| Topology.EachChannelHasItsQueues | internal/queue/publisher.go:52-77 | a published notification reaches its channel's queue only, a dead-lettered one that channel's dead-letter queue only, all queues differ, and queues and keys are spelled with the channel's name |
| Queues.EveryMessageIsInOnePlace | internal/queue/publisher.go:52-77 | with queues, open deliveries and acks as containers that publish, deliver, ack, nack and connection losses move messages between by the declared bindings and dead-letter arguments: in every run each published message is in exactly one of them, once, and it is one of its own channel, which for a notification is the channel of its row |
| Queues.ChannelsAddUp | internal/queue/publisher.go:52-77 | in every run, the messages ready, open, acked and dead-lettered on a channel add up to those published on it |
| Topology.SetupAgain | internal/queue/publisher.go:48-77 | on a broker where setup was done before, whatever else it had, setup is accepted for every channel and changes nothing at all |

## Left out

- PostgreSQL, RabbitMQ and Redis themselves: each statement, broker operation and script run is one atomic step on abstract state; a nil error from Publish means that the message is stored, an error that it is not, and an error from a worker's or publisher's row write that it wrote nothing (a commit of new rows may go unheard).
- Priorities inside RabbitMQ, prefetch and consumer tags: any ready message may be delivered next, to any worker.
- The order in which workers take over the Go scheduler, goroutine counts, `worker`'s select loop and `Shutdown`: a worker is a delivery in the step machine; a shutdown shows as the limiter wait or the backoff being cut short, a crash as a lost connection.
- Statements after a cancelled context: they are ordinary failing statements.
- Consumer.WaitForLimiter: the number of refusals before the limiter admits is given with the environment's other answers, since nothing in the loop itself bounds it; `RateLimiting.DenialsAreBounded` says what does.
- Ids: UUIDs are fresh numbers, never used twice.
- Recipient, content, subject and priority columns of a row, and updated_at with its trigger: they travel unchanged.
- Field validation, e-mail parsing, JSON and RFC 3339 parsing: a request carries its verdict; `Validate` is not part of this model.
- Template lookup in Create: a request says whether its template exists on its channel; rendering is modelled on its own, and rendered content is not checked again by the code either.
- HTTP handlers, routing, middleware, health checks, metrics, configuration, logging, tracing and header carriers.
- Floating point: the backoff product is exact below 2^53 ns and is taken as exact; the conversion of an out-of-range product is the one of amd64; the page count is taken as exact, which holds below 2^53 rows.
- Strings are sequences of characters, not UTF-8 bytes; replacing UTF-8 patterns byte by byte gives the same matches.
- Querying.BuildWhere: conditions are terms with a column, an operator and an argument number, not SQL text.
- Migrations.Migrator.Run: the table schema_migrations exists from the start, one runner works at a time, and a script rolls back as a whole.
- RateLimiting.SlidingIntervalBound: it counts admissions by the script; a worker whose call of Allow fails goes on as if admitted (internal/queue/consumer.go:126-129) and is not counted.
- RateLimiting.WindowAdmitsItsLimit: one clock for callers and Redis; a counter lives until its expiry millisecond is reached.
- Topology.Broker.Setup: what a failed setup leaves behind is not stated; the connection is closed.
