# Notification service: ingest, retry, store and delivery

The service takes status-change webhooks, stores each event once, announces it over Redis to the WebSocket
connections of the citizen it is about, and serves the stored notifications over REST. When the database
refuses an event, the event goes to a retry set in Redis and from there, after five failed retries, to a dead
list. This project models that machinery in Dafny and proves what it promises.

`dafny verify dfyconfig.toml` checks everything.

## How the model is laid out

- `Domain`, `Store`, `Paging`: the entities, and what each SQL statement does to the table (a sequence of rows
  in insertion order, `event_hash` and `id` unique).
- `Backoff`: the worker's delays, in int64 nanoseconds with wrap-around written out.
- `Protocol`: the ingest and retry protocol as a transition system. Any number of webhook handlers and retry
  workers, each at a point of its code (`Proc`), share the table, the retry set and the dead list. A step is one
  call to a service or one clock reading, so all interleavings are runs; what a call does under a fault (no
  effect, or its effect and then an error) is part of the action; a crash may strike any process at any point.
  `log` is the history, one record for each step. Proved about it: `Safety` (publishing, acknowledging),
  `Announcing` (exactly what keeps a stored row from being published),
  `Refinement` (against a three-step abstract service), `Custody` (conservation with named losses, provenance),
  `Confluence` (redelivery), `History` (dead letters, backoff spacing), `Lineage` (one line of history for each
  entry), `Drain` (termination), `Overtaking` (fairness of the retry set).
- `Repository`, `RetryQueue`, `Webhook`, `RetryWorker`: the code itself, as classes with the fields the program
  mutates: the circuit-broken connection and the repository on it, the queue, the webhook handler, the worker with its
  loop. Each method is proved against the statement or protocol functions.
- `Deployment`: what the processes share, and everybody else at work on it. `Handler.Handle` and `Worker.Process` run
  statement by statement on those objects, with any steps of the others before every call, and are proved to be one
  process of a run of the protocol: that is what ties the code to the theorems over all interleavings.
- `Service`: the statements of all requests over the table, one after the other, each with its fault, for the
  two-run and accounting theorems.
- `Hex`, `Broadcasting`, `Connection`: channel names, messages, and one WebSocket connection with its three
  goroutines, their 16-slot channel and their context as a transition system over all schedules.
- `ConnectionCode`: the loops of the pump and of the WebSocket handler over the objects they share, statement by
  statement, with everybody else at work between them; an abstraction function ties those objects to that system.
- `EndToEnd`: what follows when the parts are composed.

SHA-256, HMAC-SHA256 (section 2 of RFC 2104), JSON and RFC 3339 parsing are function parameters (`Config`).
That SHA-256 tells the posted bodies apart is a hypothesis (`TellsApart`, `HashDetermines`, `HashNamesOwner`),
made only where a theorem needs it. Clock readings are arbitrary; the theorems that need
more say so (`ClocksRunOn`: no worker's clock runs back while it processes one entry; `StampsLater`). That no two
failed deliveries of one event are stamped with the same instant, and so become one entry twice, is a hypothesis of
`Lineage` (`DistinctStamps`); `Lineage.TwinStampsRunTwice` shows what can happen otherwise. A pop that finds nothing is
taken to reach the caller as "nothing ready", as the comment at `internal/dlq/dlq.go:70-72` says. Of the circuit
breaker only this is assumed: it refuses to run a call, or runs it once and passes its result on.

Where the documents and the code differ the model follows the code: a stored event is answered 201, where
I-PER-1 of `analisa-de-requerimentos.md` has 200; there is one Redis channel for each citizen, where I-BRD-1 has
a single one.

One promise the code does not keep in every run: that every stored event is announced. `Announcing.UnannouncedIff`
says exactly when it is not, and `Announcing.HiddenForGood` that this is final: the insert that stores the row reports
a failure, or the process told of the row crashes before it publishes, or its call to Publish fails, which R-WH-14
of `analisa-de-requerimentos.md` allows. At the call, `Repository.FailedYetStoredIff` says exactly when an insert
stores its row and fails; the circuit breaker alone, refusing a scan whose statement has run, is enough.
`Announcing.EachFaultCanHide` gives a run for each of the three. Announced means that Redis has got the post.

## Model

| member | source | states |
|---|---|---|
| Safety.AtMostOncePublish | internal/dlq/worker.go:64-100 | Over all interleavings of handlers, redeliveries, workers, crashes and fail-after-commit inserts no hash is published twice; every publication follows the insert that created its row and carries what the row still holds |
| Safety.AcknowledgedIsDurable | internal/webhook/handler.go:138-150 | An answer 200 or 201 means exactly one row with that hash, in that state and all later ones; after 201 the row records the very event |
| Safety.RowsAreFrozen | internal/storage/notification.go:54-75 | Along any run rows stay where they are and nothing in them changes but the read mark being set |
| Safety.RunInv | internal/webhook/handler.go:128-150 | Every run keeps the invariant behind the three above: published hashes differ from each other and from those a process still has to publish, each of which has its row |
| Announcing.UnannouncedIff | internal/webhook/handler.go:128-150 | In any run a stored row has neither been posted to Redis nor is about to be by a process holding it exactly when one of three faults has hidden it: the insert that stored it failed after its effect, or the process told of it crashed, or that process's call to Publish failed without effect |
| Announcing.HiddenForGood | internal/dlq/worker.go:92-95 | A hidden row stays unannounced however the run goes on |
| Announcing.EachFaultCanHide | internal/webhook/handler.go:128-150 | Each of the three faults does hide rows: three concrete runs of one handler, each ending with a stored row that nobody has posted or will post |
| Announcing.ExactlyOnce | internal/dlq/worker.go:92-100 | Without those three faults the hashes posted are in the end exactly those of the rows, each posted once |
| Announcing.CreatedMeansAnnounced | internal/webhook/handler.go:145-150 | A 201 is answered only after Publish has been called for the event, and Redis gets a post of it, then or ever, exactly if that call did not fail without effect |
| Refinement.RunRefines | internal/webhook/handler.go:76-151 | Every run of the faulty system is, state by state, a run of an abstract service that only adds events with new hashes, posts a pending one once, or forfeits it |
| Refinement.StepRefines | internal/dlq/worker.go:34-100 | Each step from a reachable state is one step of the abstract service or a stutter |
| Custody.Conservation | internal/webhook/handler.go:129-135 | Every event that reached Insert is in the table, held by a process, waiting or dead, unless one of the named faults hit it after its arrival |
| Custody.HeldUnlessLost | internal/dlq/dlq.go:59-97 | A step without one of those faults keeps every event; a fault loses only the event it names |
| Custody.DuplicateReplyNamesItsEvent | internal/webhook/handler.go:138-143 | If hashes determine events, a 200 too means that the row records the event of the request |
| Custody.DrainedHasPersistedAll | internal/dlq/worker.go:92-100 | After any drained run an event is stored exactly when it arrived, but for the dead and the lost |
| Confluence.RedeliveryConfluence | internal/webhook/handler.go:106-150 | Any fault-free interleaving of any requests ends with one row for each distinct hash, as many 201s, and 200 for all the rest |
| Confluence.FaultsDoNotChangeTheOutcome | internal/dlq/worker.go:92-95 | A faulty run that drains with nothing dead or lost has stored what a fault-free run of the same arrivals stores |
| History.CountersInRange | internal/dlq/worker.go:68-71 | Waiting and popped entries have a counter from 1 to MaxAttempts, so the shift count is never negative |
| History.DeadLetterHistory | internal/dlq/worker.go:65-90 | Every dead entry has, in order, one failed handler insert and five failed worker inserts, one for each counter value |
| History.BackoffSpacing | internal/dlq/dlq.go:46-55 | No retried entry is popped but after a rescheduling of it at t with delay d, and later than t + d - 1ms |
| History.TotalSpacing | internal/dlq/worker.go:69-75 | From a first pop to the pop with counter a all backoffs up to a pass, less a millisecond each, whatever the clocks of different workers say of each other |
| History.DeadNoSoonerThan30s | internal/dlq/worker.go:11-15 | With the production constants no worker gives up on an entry, whatever becomes of the push, until more than 30s - 4ms after a first pop of it |
| Lineage.OnePlaceAtATime | internal/dlq/dlq.go:59-64 | If no two stamps make the same entry, an entry is in one place at a time: no two workers hold it, and none holds it while it waits |
| Lineage.EachStageOnce | internal/dlq/worker.go:64-90 | And its pops, inserts, reschedulings and burial come in the order of its counter, none twice with one counter |
| Lineage.ExactlyFiveInserts | internal/dlq/worker.go:65-90 | A dead entry has been inserted by workers exactly five times, once for each counter, each time in vain |
| Lineage.EveryPopIsSpaced | internal/dlq/dlq.go:46-55 | Every pop of a retried entry comes later than every rescheduling that made it by more than the backoff less a millisecond |
| Lineage.EveryFirstPopIsLongBefore | internal/dlq/worker.go:11-15 | No worker gives up on an entry until more than 30s - 4ms after every first pop of it |
| Lineage.TwinStampsRunTwice | internal/dlq/dlq.go:41-43 | A run in which two stamps agree and one entry is inserted twice with one counter: the hypothesis is needed |
| Drain.StepUsesPotential | internal/dlq/worker.go:64-90 | The summed attempts left of waiting and held entries fall with every worker insert and rise only, by five, with an arrival |
| Drain.InsertsBoundedByArrivals | internal/dlq/dlq.go:17 | In any run workers insert at most five times as often as requests arrived |
| Drain.DrainingCost | internal/dlq/worker.go:34-62 | With any number of workers n waiting entries cost at most 5n worker inserts and 20n steps of any kind until new requests arrive, whatever fails |
| Drain.StepUsesWork | internal/dlq/worker.go:34-100 | Every step of a handler or a worker uses up some of a measure that only arrivals raise, by 24 each; starts, crashes and read marks never raise it |
| Drain.StepsBoundedByArrivals | internal/webhook/handler.go:76-151 | In any run handlers and workers take at most 24 steps for each request that arrived |
| Drain.StuckIff | internal/dlq/worker.go:34-62 | No handler or worker can take a step, at any reading of the clock, exactly when there are only idle workers and nothing waits or there is not one |
| Drain.StopsOnlyDrained | internal/dlq/worker.go:34-100 | A run without new requests takes boundedly many steps of handlers and workers, and if it stops with a worker alive the retry set is empty and every event is stored, dead or hit by a named fault |
| Drain.CanDrain | internal/dlq/worker.go:34-100 | From any reachable state with a worker the system can drain by at most so many steps of its own |
| Overtaking.BoundedOvertaking | internal/dlq/dlq.go:41-64 | Once what is stamped is stamped for later than an entry's score, the pops before its own, by whatever readings, are bounded by the entries ahead in (score, member) order and those stamped and about to land |
| Backoff.ShiftIsSaturating | internal/dlq/worker.go:69-71 | Shift-then-cap equals doubling with saturation |
| Backoff.DelayMonotone | internal/dlq/worker.go:69-71 | Without overflow the int64 delay grows with the counter and never exceeds the cap |
| Backoff.OverflowsIffPast34 | internal/dlq/worker.go:11-15 | With 2s the int64 shift overflows exactly for counters above 34 |
| Backoff.ProductionDelay | internal/dlq/worker.go:69-71 | Up to counter 34 the int64 delay is the saturating one and positive |
| Backoff.SafeLimitIff | internal/dlq/worker.go:69-71 | Every delay up to a limit on attempts is the one meant exactly when the limit is at most 34; at 35 the delay is negative |
| Backoff.GeometricTotal | internal/dlq/worker.go:69-71 | Up to the cap the delays add up to initial * (2^(a-1) - 1) |
| Store.InsertKeepsRows | internal/storage/notification.go:56-75 | An insert, however it fails, keeps the uniqueness constraints and all rows |
| Store.InsertResults | internal/storage/notification.go:56-75 | Created, duplicate and failed: what each result says about the table before and after |
| Store.MarkReadIff | internal/storage/notification.go:125-139 | Marking finds the citizen's own row or none, returns it read as of now and otherwise unchanged, and leaves all other rows alone |
| Store.ViewMembers | internal/storage/notification.go:92-99 | A citizen's view holds exactly that citizen's rows |
| Store.ViewGrows | internal/storage/notification.go:150-157 | As the table grows no citizen's count falls |
| Paging.ListingIsTheOrder | internal/storage/notification.go:93-99 | The listing is the only sequence with each of the citizen's rows once in which an earlier row has the later event_timestamp or, of equal ones, the greater id |
| Paging.PagesPartition | internal/storage/notification.go:92-123 | For any page size the pages concatenated are the citizen's rows, each once, the newest first and of one instant the greatest id first |
| Paging.TwoQueriesAgree | internal/storage/notification.go:101-122 | Whatever was inserted or marked between the two queries, a non-empty page fits under the total |
| Service.NonInterference | internal/storage/notification.go:77-157 | Leaving out all other citizens' webhooks and requests changes none of a citizen's replies, whatever calls fail and whatever comes between the two queries of a listing, if for each hash the citizen inserts nobody else inserted it first |
| Service.NonInterferenceIff | internal/storage/notification.go:54-75 | That condition is exact: without it the citizen can tell the difference, by a count at the latest |
| Service.SharedHashInterferes | internal/webhook/handler.go:105-107 | A witness that the condition is needed: with a shared hash, a 201 would become a 200 |
| Service.UnreadAccounting | internal/storage/notification.go:125-148 | The unread count is the notifications stored for the citizen less the distinct own ones ever marked, counted by what happened to the table and not by what callers were told |
| Service.UnreadReply | internal/storage/notification.go:141-148 | After any run, whatever failed, an unread request that itself succeeds is answered with that number |
| Service.MarkLowersCountOnce | internal/storage/notification.go:125-139 | A mark lowers a citizen's count exactly when it is the citizen's own and reaches the table, for a notification not marked before |
| Service.RepliesTellEffects | internal/storage/notification.go:125-139 | Without a fault 201 means exactly that a row was stored, and a row in reply to a mark exactly that the citizen's own was marked |
| Repository.CbQuerier.QueryRow | internal/circuitbreaker/postgres.go:55-60 | The statement runs here, unless the breaker is open, before any scan |
| Repository.CbQuerier.Scan | internal/circuitbreaker/postgres.go:70-82 | A refused scan is an error; one that runs reports no-rows as a success |
| Repository.NotificationRepo.Insert | internal/storage/notification.go:56-75 | Through the breaker an insert does exactly what the statement does under the fault the calls amount to, replies what `Service.Answer` says for it, and a duplicate counts as a success |
| Repository.NotificationRepo.MarkRead | internal/storage/notification.go:125-139 | Marks only the citizen's own row, returns it as it is then, and says "not found" for any other; the reply is the one `Service.Answer` gives |
| Repository.NotificationRepo.CountAll | internal/storage/notification.go:150-157 | Counts the citizen's rows and changes nothing; the reply is the one `Service.Answer` gives |
| Repository.NotificationRepo.CountUnread | internal/storage/notification.go:141-148 | Counts the citizen's unread rows and changes nothing; the reply is the one `Service.Answer` gives |
| Repository.NotificationRepo.List | internal/storage/notification.go:92-123 | Returns the page of the first query and the total of the second, as `Service.Answer` has them, which a non-empty page fits under, or an error exactly when one of the three sources of error strikes |
| Repository.FailedYetStoredIff | internal/circuitbreaker/postgres.go:55-82 | An insert stores its row and reports a failure exactly when hash and id are free, the breaker lets the statement through, and the answer is lost or the scan refused |
| Repository.NoSecondCreation | internal/storage/notification.go:56-75 | After that, however the table grows, no insert of that hash is ever told of a new row |
| RetryQueue.SomeFirst | internal/dlq/dlq.go:59-64 | A non-empty set has a first member in (score, member) order |
| RetryQueue.Queue.Enqueue | internal/dlq/dlq.go:41-43 | A new entry goes in with counter 1, ready at once |
| RetryQueue.Queue.EnqueueAt | internal/dlq/dlq.go:46-55 | The member gets the millisecond of its ready time as score; one already present only changes its score |
| RetryQueue.Queue.DequeueReady | internal/dlq/dlq.go:57-84 | Removes and returns the first ready entry, nothing if none is ready; a lost reply or an undecodable entry is removed all the same |
| RetryQueue.Queue.MoveToDead | internal/dlq/dlq.go:88-97 | Puts the entry at the head of the dead list |
| Webhook.SignedPostRoundTrip | internal/webhook/handler.go:77-126 | A post signed by its sender is accepted exactly when the payload is valid and its instant readable, and the payload can be rebuilt from the accepted event |
| Webhook.SignatureIff | internal/webhook/handler.go:153-164 | A header is accepted exactly when it is the prefix and the body's HMAC in hexadecimal of either case |
| Webhook.UnauthorizedIff | internal/webhook/handler.go:77-86 | Any request at all is turned away with 401 exactly when its body was read and its header is not "sha256=" and the HMAC of that body, not empty, in hexadecimal of either case |
| Webhook.AcceptedIff | internal/webhook/handler.go:77-126 | And taken in exactly when it is so signed and its body is JSON whose fields, named one by one, are there and of the form required; the event then has every text of the payload, the HMAC of the CPF and the hash of the body; every other refusal is a 400 |
| Webhook.HashDeterminesEvent | internal/webhook/handler.go:105-126 | Among accepted requests equal hashes mean the same body and the same event, citizen included |
| Webhook.Handler.Handle | internal/webhook/handler.go:76-151 | A refused request changes nothing; one taken in bears its body's signature and is, with any steps of others between its calls, one handler of a run of the protocol from arrival to reply: 201, 200 or 500 as its insert gave a new row, a duplicate or a failure; 401 is the answer exactly to a body that was read and is not signed |
| Deployment.Publisher.Publish | internal/broadcast/publisher.go:57-63 | Puts the row's message on the channel of the row's citizen, unless the call fails before it takes effect; reports a failure otherwise too |
| RetryWorker.Worker.Process | internal/dlq/worker.go:64-100 | With any steps of others between its calls, one worker of a run of the protocol from pop to loop; left alone it reschedules with the next backoff, buries, drops or publishes as the insert went |
| RetryWorker.Worker.Run | internal/dlq/worker.go:34-62 | A run of the protocol; inserts are bounded by the attempts left; with Redis up the set is empty once the worker has slept past the last possible instant, whichever inserts fail and however long calls take, and no event goes missing |
| RetryWorker.ReadyEntriesAreOnTime | internal/dlq/worker.go:11-15 | For entries ready at the start that instant is 31 seconds of sleep away |
| RetryWorker.Worker.BackOnTime | internal/dlq/worker.go:69-75 | Rescheduling moves the last instant at which an event can still be waiting by no more than the calls have taken |
| Hex.DecodesIff | internal/webhook/handler.go:158-161 | A text decodes to some bytes exactly when it is their encoding up to letter case |
| Hex.EncodeInjective | internal/broadcast/publisher.go:31-33 | Different byte strings, of any lengths, have different encodings |
| Broadcasting.ChannelsAreSeparate | internal/broadcast/publisher.go:31-33 | Two citizens have the same channel exactly when they are the same |
| Connection.DeliveryOrderAndIsolation | internal/broadcast/subscriber.go:28-47 | What a connection has written is, in order and without repetition, of what was posted on its own citizen's channel after it subscribed, and a post of a notification only if it is that citizen's |
| Connection.FateOfAPost | internal/broadcast/subscriber.go:28-47 | Under any schedule a post is on its way to the socket, or written, ever after exactly if Redis carried it to the subscription while that was alive, it was on the citizen's own channel, and neither the pump stopped with it in hand nor its write failed |
| Connection.ChannelDiscipline | internal/broadcast/subscriber.go:20-51 | The pump never sends on a closed channel and closes it exactly once; a handler that has returned has cancelled the context |
| Connection.PumpNeverStuck | internal/broadcast/subscriber.go:41-45 | Once cancelled the pump always has a step, even with all slots full |
| Connection.PumpIdleIff | internal/broadcast/subscriber.go:29-47 | The pump has no step it can take exactly when it has exited, or the context is live and it waits: for a message while the subscription is alive, or with every slot full |
| Connection.PumpStepsBounded | internal/broadcast/subscriber.go:29-47 | Under any schedule the pump's steps are bounded by what it had to do and two for each message it receives meanwhile |
| Connection.NoGoroutineIsLeft | internal/ws/handler.go:56-98 | From any cancelled state all three goroutines can end within nine steps, whichever way the write or ping under way goes |
| Connection.EitherEndEndsAll | internal/ws/handler.go:56-78 | From any state the end of the request, or a failing read of the client, lets all three goroutines end within eleven steps |
| Connection.AllCanBeWritten | internal/broadcast/subscriber.go:33-47 | When the subscription ends by itself, in any state in which neither pump nor handler has begun to end, everything received that can be decoded can still be written, in order, before pump and handler end, in a bounded number of steps |
| Connection.ClosedChannelIsSeen | internal/ws/handler.go:84-87 | When the pump has ended, a handler at its select has a message to write or sees the channel closed |
| ConnectionCode.Pump | internal/broadcast/subscriber.go:24-48 | Amid any interference the loop, on the channel, subscription and context it shares, does only what the system allows; it sends on every decodable message it takes, in order, but for one it may have in hand; no send or close can panic. Left alone, with a live context and room, it has taken all that waits and sent on exactly the decodable messages after two turns each, and returned after one more if the subscription is over. With the context done it has returned by then, plus two turns for each message still received, whatever others do and however full the channel is, and at once if a select picks the context |
| ConnectionCode.Serve | internal/ws/handler.go:80-98 | Likewise for the handler's loop: it writes what it receives, in order, but for a last one whose write fails; on return the context is cancelled and the socket closed. Left alone, with a live context and no tick or failing write, it has written all that was in the channel after one turn each, and returned after one more if the channel is closed. With the context done and no tick it returns within one turn more than it receives messages; a failed ping or a select that picks the ended context ends it at once |
| ConnectionCode.Forward | internal/ws/handler.go:84-91 | The oldest message of the channel is what is written, or lost if the write fails |
| EndToEnd.BodiesDetermineEvents | internal/webhook/handler.go:105-107 | If SHA-256 tells the posted bodies apart, hashes determine the events of a run |
| EndToEnd.BodiesIsolateCitizens | internal/webhook/handler.go:105-107 | Under the same hypothesis leaving out everybody else's requests changes none of a citizen's replies |
| EndToEnd.TableIsAfterStatements | internal/storage/notification.go:54-75 | The table of every run of the protocol is what its insert and mark statements make of an empty one |
| EndToEnd.StatementsRun | internal/storage/notification.go:54-75 | And the other way round: whatever any inserts and marks, in any order and with any faults, make of an empty table is the table of some run |
| EndToEnd.UnreadInEveryRun | internal/storage/notification.go:141-148 | Hence the unread equation holds in every run, with its retries, races and faults |
| EndToEnd.CitizensAreIsolated | internal/storage/notification.go:77-157 | And in every run a citizen's notifications are what that citizen's own statements alone would have made, if SHA-256 tells the posted bodies apart |
| EndToEnd.OneRowForEachBody | internal/webhook/handler.go:106-150 | Any fault-free interleaving of any requests ends with one row for each distinct body, recording its event, as many 201s, and 200 for all the rest |
| EndToEnd.QueuePopsInOrder | internal/dlq/dlq.go:57-64 | The entry a pop of the queue returns is one the protocol allows and the overtaking bound assumes |
| EndToEnd.ConnectionsShowEventsOnce | internal/ws/handler.go:80-91 | If Redis carries the posts of the run at most once and in order, no connection writes two messages for one event, through redeliveries, retries, races and crashes, and each is to the letter the message of a row of its citizen |

## Left out

- HTTP and Gin plumbing, status texts, logging, tracing, configuration, the migrations runner, the mock identity
  provider, load scripts, container and cluster files: input and output or one-line checks.
- JWT and JWKS: the citizen of an authenticated request is an input.
- gobreaker's states and timers, go-redis retries on the wire, Redis persistence: covered by "a call may fail
  before or after its effect"; that Redis has got a post does not mean that a subscriber has.
- RedisHook returns no error for an empty pop (`internal/circuitbreaker/redis.go:41-52`); what go-redis then does
  with the command's own error is not part of this model.
- PostgreSQL's MVCC, indexes and microsecond timestamps: statements are atomic steps and instants are integers.
- Deadlines of WebSocket reads and writes: a write, a ping or a read may fail at any time instead.
- FindByID, ParsePagination, toResponse: one-branch facts.
- RetryWorker.Worker.Run: one worker, and nobody else at work; the context ends at a given instant, seen at the top of
  the loop. Several workers at once are the business of the protocol theorems and of `Worker.Process`.
- RetryQueue.Queue.DequeueReady: the script's result is chosen by its specification, not by walking a sorted set.
- Connection.DeliveryOrderAndIsolation: is about the transition system on values; in `ConnectionCode` subscription,
  channel, context and socket are fields of one object rather than objects of their own.
- ConnectionCode.Pump, ConnectionCode.Serve: run for a given number of selects, since nothing bounds the life of a
  connection. What the others do in between is what the transition system allows them; the reader goroutine, two
  steps long, is there only.
- Drain.StopsOnlyDrained: several workers draining at once are bounded in steps but not in time, since nothing bounds
  how long their calls take; which readings the clock gives is left open, so a worker may also find nothing ready.
