# Message log, outbox and replay of Relationship OS, in Dafny

Relationship OS is a private chat server. This project models the part that promises durability
and order, and proves those promises over every input, every run or every interleaving:

* **Sending** (`MessageLog`, `MessageService`, `Progress`). `send_message` is a transaction-level state
  machine: per-process conversation lock, idempotency lookup, `max(sequence) + 1`, one flush of
  message, delivery rows and outbox event, lock release, and only later the caller's commit.
  Any number of calls in any number of processes interleave at every await, and any of them may
  roll back or crash at any point.
* **The outbox** (`Outbox`, `OutboxInvariant`, `Agreement`, `Backoff`, `Selection`, `Contacts`,
  `Starvation`, `Router`, `Passes`, `OutboxWorker`, `Admin`). One worker loads a batch, claims, routes, commits
  or rolls back and books the error, and may die between any two steps; sends and administrators run meanwhile.
* **The whole write path** (`System`, `Tasks`, `Counterexamples`, `Integrity`). Both machines over
  one database; the theorems hold in every state of every run.
* **Reading** (`History`, `ReadService`). Cursor paging refines the log.
* **Live delivery** (`Replay`, `ReplayInvariant`, `ReplayTheorems`, `Positions`, `Client`,
  `ClientView`, `LiveDelivery`, `LiveShown`). Reconnect and replay is a protocol between one client
  and any number of broadcasting senders of every kind; `LiveDelivery` runs it on top of the write
  path, where its guards are facts of the database. The protocol's `received` are the messages the
  client has that were not taken back; `ClientView` and `LiveShown` keep everything it was shown.
* **Self-contained parts** (`Rooms`, `RateLimiter`, `Sanitizer`, `Signature`).

The step functions (`MessageLog.Do`, `Outbox.Do`, `System.Do`, `Replay.Do`) are the model of what
one statement between two awaits does; the classes (`MessageService`, `OutboxWorker.Worker`,
`IntegrationRouter`, `AdminApi`, `ConnectionManager`, `InMemoryRateLimiter`, `ReadService`,
`SyncClient`) have the program's own objects and loops, and are proved against those functions.
An await in a class is a method that lets other tasks take any number of steps. What the shared
functions write is also stated column by column, without naming them: `PostMessage`, `ProcessBatch`,
`RouteEvent` and `RetryDelivery`, the pages of `History`, `Sanitizer.SanitizeKeeps`.

## Assumptions

* Read-committed isolation. An insert waits while another open transaction holds one of its unique
  keys (row id; conversation and client id; conversation and sequence number) and fails if a
  committed row has it. A commit that raises has not committed.
* One outbox worker. The select takes no row lock, so two workers could overwrite each other.
* A worker round's reads and writes of a message's delivery rows take effect together at its commit.
* One server process for live delivery, because the rooms are per process.
* HTTP sends, clocks, jitter, settings, endpoint lists and the keyed hash are parameters.

## Where the documentation and the code disagree

The model follows the code.

* README.md:60 promises no sequence conflicts under concurrency, because of the lock. The lock is
  released before the commit, so a send can fail with an IntegrityError that is re-raised although
  its client id is new: `Counterexamples.ConflictDespiteLock`, and exactly when:
  `MessageLog.RaisesIffOvertaken`, `MessageService.RaisesIffOvertaken`. Gaplessness holds all the
  same, through the unique constraints.
* ARCHITECTURE.md:129-133 has a backoff cap of 60 and a `dead_letter` state. The code has 300 and
  `failed`, and a flat 10 seconds after an exception.
* A REST send broadcasts before it commits. A socket that registers in between is passed over
  exactly if it also queries before the commit, or the message is beyond its replay's cap:
  `ReplayTheorems.RestSendLostIff`, with a run in `ReplayTheorems.RestSendIsLost`. Outside that
  window replay is lossless for REST sends too: `ReplayTheorems.LosslessOutsideWindow`. If the send
  rolls back, nothing recalls the event: its listeners have been shown a message that never came to
  be (`ClientView.WithdrawnIsShown`; exactly when: `LiveShown.ShownToTheClient`), keep its number as
  their position, and can lose the next message with it (`Positions.PhantomIsLost`).
* A replay is capped at 100 messages. `ReplayTheorems.CaughtUpIffWithinReplay` says exactly when
  that loses messages. A broadcast that overtakes a replay can lose messages too if the socket then
  drops: `Positions.OvertakenReplayIsLost`, `Positions.LostForever`. When exactly a client gets a
  gap: `Positions.NoGapAcrossReconnects`.
* The "webhook" delivery row that every send creates is never contacted (`System.AttemptsCounted`),
  so a delivered event does not mean that all of its message's rows are delivered.
* Endpoint names are not unique. If two endpoints that want an event share their name, their one
  delivery row can read delivered after a failed round: `Agreement.AgreesIffDistinct`,
  `Agreement.TargetsDistinctIff`, with a run in `Counterexamples.RepeatedNameHidesFailure`.
* The administrator's retry of one delivery resets the failed events of all messages
  (`Admin.AdminApi.RetryDelivery`).
* A socket that syncs a second conversation stays in the first room for good
  (`Rooms.SwitchedSocketLingers`).
* A read receipt may name a number beyond the log and then hides messages not yet sent
  (`ReadService.CommitRaisesIff`).
* A rate limit of zero or less raises IndexError on an empty list, whatever the calls before
  (`RateLimiter.IndexErrorIff`).

## Model

| member | source | states |
|---|---|---|
| System.GaplessOrder | apps/api/src/services/message_service.py:127-219 | in every reachable state the i-th committed message of a conversation has number i, the taken numbers are exactly 1..n, and at most one uncommitted insert of it exists, numbered n + 1 |
| System.ExactlyOnce | apps/api/src/services/message_service.py:128-219 | at most one committed row has a given (conversation, client id), all committed calls with the key returned it, and exactly one of them said it was new |
| System.CommittedStands | apps/api/src/core/database.py:44-54 | along a run committed rows are only appended and a committed call's answer never changes |
| System.LockExcludes | apps/api/src/services/message_service.py:25-31 | no two calls of one process are inside the lock of one conversation together |
| MessageLog.StepKeepsInv | apps/api/src/services/message_service.py:106-219 | every step of a send, a rollback or a crash keeps gapless numbers, unique ids and client ids, one open insert per conversation, consistent locks and one creator per row |
| MessageLog.FlushKeeps | apps/api/src/services/message_service.py:201-219 | the insert step keeps the invariant because a stale number is taken and the current one is blocked by any other open insert |
| MessageLog.CommitKeeps | apps/api/src/core/database.py:44-54 | committing an open insert keeps the invariant for the table and for every other call |
| MessageLog.PendingIsNew | apps/api/src/models/message.py:13-16 | a row about to be committed has a fresh id, a fresh client id and the next number |
| MessageLog.RaisesIffOvertaken | apps/api/src/services/message_service.py:207-219 | an insert conflicts exactly if its number or client id has been committed since, and whatever is committed before the re-query it then raises exactly if the number was taken and the client id is still unknown |
| Counterexamples.ConflictDespiteLock | apps/api/src/services/message_service.py:127-219 | a run in one process in which a send with a new client id ends in a re-raised IntegrityError |
| MessageLog.MaxIsCount | apps/api/src/services/message_service.py:140-146 | on a gapless table max(sequence) is the number of rows |
| MessageLog.TakenNumbers | apps/api/src/models/message.py:15 | on a gapless table the taken numbers are exactly 1..n |
| MessageLog.FindByClientId | apps/api/src/services/message_service.py:129-137 | the lookup finds a row with the key exactly if there is one |
| MessageService.MessageService.SendMessage | apps/api/src/services/message_service.py:106-219 | under any interference at its awaits the call is a stretch of a system run and releases its lock; what it returns or raises is what the tables it met at its four statements demand, a new answer takes number n + 1, it is refused exactly if the body is too long, and cancelled only where its lock was held or its keys were blocked after all its waits |
| MessageService.RaisesIffOvertaken | apps/api/src/services/message_service.py:128-219 | a call raises exactly if its number or row id was taken between max() and the insert and its client id is unknown at the re-query, answers new exactly if neither happened, and else answers a committed message with its key |
| MessageService.MessageService.PostMessage | apps/api/src/core/database.py:44-54 | a handler ends as send_message does; a new answer is then the last committed row, and its commit adds exactly one event, pending, with no retries used and with the message's id and number and the origin, retry limit and times given to the send, and exactly the queued "discord" and "webhook" rows of a message that had none; every older event and row stands, and without a new answer the commit changes no table |
| Progress.EverySendCanFinish | apps/api/src/services/message_service.py:127-219 | from every state of the invariant every send can finish by steps of sends under way, none of which rolls back: no two sends block each other for good |
| Progress.BlockerGoesOn | apps/api/src/services/message_service.py:201-206 | a send that waits at its insert waits for one that can release its lock or commit at once |
| System.DualWrite | apps/api/src/services/message_service.py:151-206 | messages and outbox events match one to one and in order, message ids are unique, every message has exactly one "discord" and one "webhook" row, and rows exist only for committed messages |
| System.PublishedByItsSend | apps/api/src/services/message_service.py:189-206 | every event in a reachable state was added by the commit of one send, it still carries the message, number, origin, age and retry limit of that send, and its completed rounds are at most that limit times one more than its resets |
| System.WorkConserves | apps/api/src/routers/admin.py:272-300 | no worker or administrator step creates, destroys or re-addresses an event or touches a message, and delivered events stay as they are |
| System.CrashSafe | apps/api/src/services/outbox_worker.py:187-252 | "processing" is never committed, live events have retries left, failed ones have used exactly their cap, and the batch's waiting copies equal the committed rows, with crashes at any point |
| System.DeliveredIsTerminal | apps/api/src/services/outbox_worker.py:217-220 | a delivered event never changes again |
| System.BoundedRounds | apps/api/src/services/outbox_worker.py:215-252 | completed rounds of an event are exactly cap times resets plus failures since plus one if delivered, hence at most cap times (1 + resets) |
| System.RoundsUseUpAttempts | apps/api/src/services/outbox_worker.py:221-252 | every completed round, in either branch, strictly decreases the remaining attempts summed over the table |
| System.TotalAfterUpdate | apps/api/src/services/outbox_worker.py:221-252 | the sum changes by exactly the updated event's difference |
| System.AttemptsCounted | apps/api/src/services/outbox_worker.py:110-151 | attempt_count is the number of committed sends to the pair, so rolled-back rounds add none; "webhook" rows are never contacted |
| Agreement.EventRowAgreement | apps/api/src/services/outbox_worker.py:213-238 | after a committed round the event is delivered exactly if every send succeeded, every contacted row is delivered exactly if the last send to each integration succeeded, and the two differ exactly if a success hides a failure |
| Agreement.DeliveredBySuccess | apps/api/src/services/outbox_worker.py:213-220 | in every run an event becomes delivered only by a committed round that contacted exactly whom the settings and endpoints demand, with a success from each of them |
| Contacts.NamesAreContacts | apps/api/src/services/outbox_worker.py:38-108 | results that name the targets in order contact Discord exactly if it is enabled and not the origin, first; then the endpoints that are enabled and whose filters do not parse or hold "message.created" or "*", in list order; then Signal exactly if enabled; and nobody else |
| Agreement.AllShownIff | apps/api/src/services/outbox_worker.py:110-151 | after routing all contacted rows read delivered exactly if the last send to each integration succeeded |
| Agreement.AgreesIffDistinct | apps/api/src/services/outbox_worker.py:208-238 | in the middle of any round event and rows will agree whatever the integrations answer exactly if no target is named twice |
| Agreement.TargetsDistinctIff | apps/api/src/services/outbox_worker.py:61-93 | a target is named twice exactly if two of the chosen endpoints (enabled, and wanting the event) share their name |
| Counterexamples.RepeatedNameHidesFailure | apps/api/src/services/outbox_worker.py:61-93 | a run from the empty database in which a round with two endpoints of one name fails and every contacted row reads delivered |
| System.RoutingNeverRaises | apps/api/src/services/outbox_worker.py:119-125 | in a reachable state the row lookup never finds two rows |
| System.RunKeepsInv | apps/api/src/services/outbox_worker.py:184-254 | every state of every run of sends, worker and administrators satisfies the invariant |
| OutboxInvariant.UpdateAllKeeps | apps/api/src/services/outbox_worker.py:110-151 | routing over any results keeps one row per pair, exact attempt counts, and every other row |
| OutboxInvariant.LastResultStands | apps/api/src/services/outbox_worker.py:137-149 | after routing, the row of a pair shows how the last send to it went, with its external id or its error |
| OutboxInvariant.ConcludeKeeps | apps/api/src/services/outbox_worker.py:213-239 | a committed round keeps events, history, worker copies and rows consistent |
| OutboxInvariant.BookKeeps | apps/api/src/services/outbox_worker.py:241-252 | booking an exception on the re-read row keeps them consistent; what it writes is `Passes.AfterRoundLeaves` |
| OutboxInvariant.AdminRetryKeeps | apps/api/src/routers/admin.py:283-292 | a manual retry keeps them consistent, also in the middle of a batch |
| OutboxInvariant.PublishKeeps | apps/api/src/services/message_service.py:165-206 | a committed send keeps them consistent, also in the middle of a batch; what it writes is `MessageService.MessageService.PostMessage` |
| OutboxInvariant.StepConserves | apps/api/src/services/outbox_worker.py:184-254 | every step keeps the events in place with their message, number, origin, age and limit |
| Router.IntegrationRouter.UpdateDelivery | apps/api/src/services/outbox_worker.py:110-151 | raises exactly if two rows match; else the one row of the pair, created if missing, has one attempt more and is delivered with the id or failed with the error of the send, and all other rows stand |
| Router.IntegrationRouter.RouteEvent | apps/api/src/services/outbox_worker.py:38-108 | without an exception it contacted exactly whom `Contacts.Contacted` says in terms of settings and endpoint columns, each result has its adapter's success, id and error, and the rows are those after one update per result; it raises only if an adapter or a row lookup does |
| OutboxWorker.Worker.ProcessBatch | apps/api/src/services/outbox_worker.py:184-254 | under any interference a pass is a stretch of a system run that keeps the invariant; a prefix of the picked events has one round each. Of the events nobody reset, one whose round raised has one retry more, is due 10 seconds on, and failed exactly at its limit; one whose round committed is delivered exactly if every answer was a success, and else has one retry more and, short of its limit, waits between min(300, 2^n + 0.1) and min(300, 2^n + 1.5); all others, and those not yet due, stand. The pass raises exactly if the next event could not be read, claimed, or have its error booked, and else returns the count of the committed rounds; without resets it is a valid batch |
| Passes.AfterRoundLeaves | apps/api/src/services/outbox_worker.py:215-252 | column by column, what a round leaves of its event after an exception, a failure and a success |
| Passes.PassLeaves | apps/api/src/services/outbox_worker.py:184-254 | a pass leaves the events it attempted so, and no event is attempted before its wait is over or after it ended |
| OutboxWorker.Worker.RunLoop | apps/api/src/services/outbox_worker.py:254-266 | pass after pass on the running system, with a database that takes claims and booked errors and without resets: a due event completes another round after one pass more than the other events at least as old have attempts left, if nothing older arrives; and every event ends delivered or failed after as many passes as the table has attempts left, if nothing arrives and each pass outwaits the one before |
| Passes.RoundInTime | apps/api/src/services/outbox_worker.py:184-254 | in any chain of passes of that length the round count of a due event grows |
| Passes.PassDrains | apps/api/src/services/outbox_worker.py:184-254 | a pass over a table whose live events are all due uses up at least one attempt, if any is left, and all its waits end by the time the next pass outwaits it |
| OutboxWorker.Worker.Route | apps/api/src/services/outbox_worker.py:207-213 | a round raises exactly if the payload does not parse, an adapter raises or the commit fails; else it contacted exactly whom `Contacts.Contacted` says, and its results are the adapters' answers, target by target |
| Starvation.AttemptedInTime | apps/api/src/services/outbox_worker.py:184-254 | without resets and new older events a due event is attempted within 1 + (remaining attempts of events at least as old) batches, cut short or not |
| Starvation.PassingOverCosts | apps/api/src/services/outbox_worker.py:189-204 | a batch that passes over a due event uses up an attempt of an older one |
| Selection.BatchExists | apps/api/src/services/outbox_worker.py:189-200 | the ordered, limited select has an answer, empty exactly if nothing is due |
| Selection.SelectMeans | apps/api/src/services/outbox_worker.py:189-197 | the select answers pending or retrying events whose time has come, each once, oldest first, as many of the oldest as the limit allows |
| Selection.InsertKeepsOrder | apps/api/src/services/outbox_worker.py:195 | ordering by creation time loses and repeats nothing |
| Backoff.WaitsNeverShrink | apps/api/src/services/outbox_worker.py:232-234 | a later failure waits at least as long, whatever the jitters |
| Backoff.TotalWaitBound | apps/api/src/services/outbox_worker.py:232-234 | n - 1 waits sum to at most 300(n - 1) and at most 2^n - 2 + 1.5(n - 1) |
| Backoff.WaitBounds | apps/api/src/services/outbox_worker.py:232-234 | each wait lies between min(300, 2^n + 0.1) and min(300, 2^n + 1.5), and the cap is reached exactly from the ninth failure |
| Admin.AdminApi.RetryDelivery | apps/api/src/routers/admin.py:272-300 | the picked row is queued with the reason, every failed event of the table becomes pending, due now and without retries, and all other rows, events and columns stand; an unknown row changes nothing |
| Integrity.VerifyDatabaseIntegrity | apps/api/src/routers/admin.py:326-363 | clean exactly if every listed conversation counts 1..n and no event is stuck; the stuck count is the number of processing events locked before now |
| Integrity.NumbersAreTheRows | apps/api/src/routers/admin.py:337-341 | the list checked for a conversation holds its rows' numbers, each as often as it occurs, in ascending order |
| Integrity.SilentIffCounting | apps/api/src/routers/admin.py:344-349 | the loop reports nothing exactly if the list is 1..n, whatever the list |
| Integrity.ReportsSuffixFromGap | apps/api/src/routers/admin.py:344-349 | on distinct positive ascending numbers it reports exactly the suffix from the first gap |
| Integrity.ReachableIsClean | apps/api/src/routers/admin.py:326-363 | every reachable committed state is reported clean |
| History.PageAfter | apps/api/src/services/message_service.py:235-244 | for a limit of 1 to 100 a page after any cursor is the next `limit` messages of the log, or all that are left; a smaller limit gives at most one, a larger at most 100 |
| History.PageBefore | apps/api/src/services/message_service.py:233-244 | for a limit of 1 to 100 a page before any cursor is the last `limit` messages below it, in ascending order; smaller and larger limits as for a page after |
| History.LatestPage | apps/api/src/services/message_service.py:237-244 | without a cursor the page is the last `limit` messages of the log, with the same bounds |
| History.WalkAfterIsTheLog | apps/api/src/services/message_service.py:221-244 | walking after_seq pages yields the log from the cursor on, each message once and in order, while sends append |
| History.WalkAfterReaches | apps/api/src/services/message_service.py:230-244 | as many requests as the backlog has pages reach its end |
| History.StillPages | apps/api/src/services/message_service.py:230-244 | on a standing log page j is the j-th slice and is empty exactly from ceil(m/k) on |
| History.PagesNeeded | apps/api/src/services/message_service.py:230-244 | for a limit of 1 to 100 exactly the first ceil(m/limit) pages of a standing backlog of m are not empty |
| History.ScrollBackIsTheLog | apps/api/src/services/message_service.py:233-244 | before_seq pages rebuild the log below the cursor, while sends append |
| History.UnscrolledClosed | apps/api/src/services/message_service.py:230-244 | after r pages exactly the first max(0, m - rk) messages are missing |
| History.ReplayIsExact | apps/api/src/routers/websocket.py:208-235 | one replay carries exactly the numbers (last, min(n, last + 100)] and reports how far it got |
| History.ReplayOffTheLog | apps/api/src/routers/websocket.py:196-235 | a position beyond the log replays nothing, a negative one replays from the start |
| ReplayTheorems.LosslessReplay | apps/api/src/routers/websocket.py:196-237 | in every interleaving with senders of every kind, every committed message after the position of an open socket is received, on its way or still owed, unless it was beyond the cap at registration, broadcast by REST before and committed after registration, or its broadcast died |
| ReplayTheorems.LosslessOutsideWindow | apps/api/src/routers/websocket.py:196-237 | if no socket registers between a REST send's broadcast and its commit, at most 100 messages were missed and the broadcast did not die, the message is received or owed |
| ReplayTheorems.AccountedExactly | apps/api/src/routers/websocket.py:204-237 | of the messages after its position a connection gets exactly those its replay reaches, those broadcast to it, and those whose broadcast has yet to look at the room; only a broadcast that died can be missing |
| LiveDelivery.RowsReachTheClient | apps/api/src/routers/websocket.py:196-296 | on top of the whole write path, every committed row after the position of an open socket is received, on its way, owed, or passed over for one of three reasons; what was received and not taken back is a committed row or the open REST send's message |
| LiveShown.ShownToTheClient | apps/api/src/routers/conversations.py:108-164 | whatever a client was ever shown is a committed row or the message of a call that broadcast before its commit, and the latter has no row exactly if that REST send is still open or failed after its broadcast |
| LiveShown.FailedArrivesOnlyIfSent | apps/api/src/core/database.py:44-54 | the event of a failed send still arrives only if it had arrived or was on its way when the send failed |
| ClientView.ShownAreBacked | apps/api/src/routers/conversations.py:108-164 | in every run, every number a client was ever shown is a committed one, the one a REST send has broadcast, or one that was withdrawn; the position is the largest number shown |
| ClientView.WithdrawnIsShown | apps/api/src/core/database.py:44-54 | a run in which a client is shown a message that rolls back, with no row and no open send |
| LiveDelivery.GuardsHold | apps/api/src/models/message.py:13-16 | whatever the calls and the database allow the protocol allows: while a REST send has broadcast and not committed, no other send of the conversation commits |
| LiveDelivery.QueryReadsTheTable | apps/api/src/routers/websocket.py:208-211 | the frame built by the query carries exactly the numbers the protocol's replay does, in every reachable state |
| ReplayInvariant.StepKeepsInv | apps/api/src/routers/websocket.py:55-72 | every step of senders of every kind, socket and client, with dying broadcasts and rollbacks, keeps the accounting of who owes which message |
| ReplayTheorems.ReceivedExactly | apps/api/src/routers/websocket.py:196-237 | of messages not taken back, once nothing is under way a connection has received exactly what was broadcast to it and the replayed range, but for broadcasts that died |
| ClientView.ShownExactly | apps/api/src/routers/websocket.py:196-237 | taken back or not, once nothing is under way a connection has shown only what was broadcast to it or replayed, and all of it but for broadcasts that died or were withdrawn |
| ReplayTheorems.CaughtUpIffWithinReplay | apps/api/src/routers/websocket.py:209-211 | registered with no broadcast under way, the client ends caught up exactly if it had missed at most 100 |
| ReplayTheorems.RestSendLostIff | apps/api/src/routers/conversations.py:108-164 | a socket that registers between a REST send's broadcast and its commit is passed over exactly if it queries before the commit or the message is beyond its replay's cap |
| ReplayTheorems.RestSendIsLost | apps/api/src/routers/conversations.py:108-164 | a run in which that happens with the socket open throughout |
| ReplayTheorems.FrameOfTheLog | apps/api/src/routers/websocket.py:208-235 | the frame built from a gapless table carries the numbers of the protocol's frame |
| Positions.StepLeavesGapIff | packages/sdk/python/relationship_os_sdk/ws_client.py:132-153 | a step leaves a gap below the client's position exactly if an event overtakes one still owed, follows one the socket was passed over for, or a REST send takes back what it has broadcast |
| Positions.NoGapAcrossReconnects | packages/sdk/python/relationship_os_sdk/ws_client.py:103-153 | over any number of reconnects the client is without a gap at all times exactly if no step of the run does one of the three |
| Positions.OrderlyLeavesNoGap | packages/sdk/python/relationship_os_sdk/ws_client.py:103-153 | if sockets register outside REST windows with at most 100 missed, no broadcast dies or rolls back, and an event is sent only when all numbers before it that the client lacks are on their way, the client never has a gap |
| Positions.DeliverInOrder | apps/api/src/routers/websocket.py:62-67 | an event sent in its turn finds every smaller number received or on its way before it |
| Positions.InOrderIffInTurn | apps/api/src/routers/websocket.py:62-67 | sending an event keeps the stream to the client in order exactly if all numbers between the client's position and the event's are on their way |
| Positions.NumberOrderIsInTurn | apps/api/src/routers/websocket.py:62-67 | that is so once the replay has been sent and no broadcast of a smaller number may still reach the client |
| Positions.LostForever | packages/sdk/python/relationship_os_sdk/ws_client.py:113-122 | a message behind the position that nothing carries any more is never received, however often the client reconnects |
| Positions.OvertakenReplayIsLost | apps/api/src/routers/websocket.py:204-237 | a run in which a broadcast overtakes the replay and the message before it is lost |
| Positions.PhantomIsLost | apps/api/src/core/database.py:44-54 | a run in which a REST send is rolled back after its broadcast and the client loses the message that gets its number |
| Client.SyncClient.OnEvent | apps/web/src/services/websocket.ts:91-96 | the position becomes the larger of itself and the event's number |
| Client.SyncClient.OnReplay | apps/web/src/services/websocket.ts:97-104 | the position becomes the largest of itself and the replayed numbers |
| RunningMax.HighestIsMaximum | apps/web/src/services/websocket.ts:22-26 | a client's position, like a read cursor, is the maximum of its start and everything seen |
| RunningMax.OrderDoesNotMatter | apps/api/src/services/read_service.py:27-32 | permuting, duplicating or splitting receipts or frames changes nothing |
| Client.LoopRaises | packages/sdk/python/relationship_os_sdk/ws_client.py:145-151 | the client's loop over a frame's numbers, phantoms included, moves the position as the protocol model does |
| ReadService.ReadService.MarkRead | apps/api/src/services/read_service.py:12-32 | a known participant's position advances and never falls, others stand, an unknown one reads 0 |
| ReadService.ReadService.GetUnreadCount | apps/api/src/services/read_service.py:34-54 | the number of undeleted messages of the conversation by others above the position, 0 by default |
| ReadService.ReceiptNeverRaises | apps/api/src/services/read_service.py:34-54 | a receipt never raises the unread count |
| ReadService.ReadToTheEnd | apps/api/src/services/read_service.py:34-54 | nothing is unread once the cursor reaches n |
| ReadService.CommitRaisesIff | apps/api/src/services/read_service.py:47-54 | a commit raises the count by one exactly if another user sent it here and the cursor is not beyond the log |
| Rooms.ConnectionManager.Register | apps/api/src/routers/websocket.py:33-43 | the socket joins the room, created if missing, and its metadata is replaced |
| Rooms.ConnectionManager.Unregister | apps/api/src/routers/websocket.py:45-53 | the metadata goes, the socket leaves the room it named, and an empty room is dropped |
| Rooms.ConnectionManager.BroadcastToRoom | apps/api/src/routers/websocket.py:55-72 | every non-excluded member of the snapshot is attempted exactly once, whatever other tasks do to the rooms at the awaits, and exactly the failed ones are unregistered afterwards |
| Rooms.AlwaysValid | apps/api/src/routers/websocket.py:33-72 | in every run a socket with metadata is in its room and no room is empty |
| Rooms.RegisterAgreesIff | apps/api/src/routers/websocket.py:33-43 | registering keeps membership and metadata in agreement exactly if the socket does not change rooms |
| Rooms.SwitchedSocketLingers | apps/api/src/routers/websocket.py:33-53 | a socket that changed rooms stays in the old one after it unregisters |
| Rooms.OneRoomAgrees | apps/api/src/routers/websocket.py:33-72 | with one conversation per socket membership and metadata agree exactly, in every run |
| Rooms.UnregisterAgrees | apps/api/src/routers/websocket.py:45-53 | an unregistered socket is in no room |
| RateLimiter.InMemoryRateLimiter.IsRateLimited | apps/api/src/core/middleware.py:21-29 | keeps the key's timestamps inside the window, each as often as it was there; admits and appends the call exactly if they are fewer than the limit; else tells the whole seconds until the first of them leaves the window, at least one, or raises exactly if there are none; other keys stand |
| RateLimiter.RecentIsTheWindow | apps/api/src/core/middleware.py:22-23 | pruning keeps exactly the timestamps inside the window, each as often as it was there |
| RateLimiter.PruningIsExact | apps/api/src/core/middleware.py:22-25 | the pruned list shows what the full admission history would, from the last call on |
| RateLimiter.DecidesLikeHistory | apps/api/src/core/middleware.py:21-29 | every decision is the one the full history gives, and the history grows exactly by the admitted calls |
| RateLimiter.WindowBound | apps/api/src/core/middleware.py:21-29 | any half-open interval of one window holds at most max_requests admissions |
| RateLimiter.RetryAfterSuffices | apps/api/src/core/middleware.py:25-27 | retry_after is at least one second, not more than the remaining time unless it is one, and less than a second short of it; after one second more the caller is admitted, and after exactly retry_after, exactly if the remaining time is whole or at most one second |
| RateLimiter.IndexErrorIff | apps/api/src/core/middleware.py:25-27 | after any calls the next one raises IndexError exactly if the limit is zero or less |
| RateLimiter.KeysAreIndependent | apps/api/src/core/middleware.py:19-29 | a key's list is what its own calls alone would leave |
| Sanitizer.SanitizedIsHarmless | integrations/discord/src/adapter.py:15-19 | for every text the result has no "@everyone", no "@here" and no mention, not even across replacements |
| Sanitizer.UnchangedIffHarmless | integrations/discord/src/adapter.py:15-19 | a text is left alone exactly if it has none of the three |
| Sanitizer.SanitizeIsIdempotent | integrations/discord/src/adapter.py:15-19 | sanitizing twice is sanitizing once |
| Sanitizer.SanitizeKeeps | integrations/discord/src/adapter.py:15-19 | nothing but the pings is changed: the text is cut at "@everyone", the result at "@here" and that at its mentions, and each time the pieces, which hold no such ping, are put together again around the replacement |
| Sanitizer.ReplaceKeeps | integrations/discord/src/adapter.py:17 | a replacement keeps all text between the occurrences, in place |
| Sanitizer.RedactKeeps | integrations/discord/src/adapter.py:18 | a text is cut into pieces without a mention and full mentions between them; redaction keeps the pieces and puts "[mention redacted]" for each mention |
| Sanitizer.ReplaceRemoves | integrations/discord/src/adapter.py:17 | a splitting replacement leaves no ping of its kind and makes none of another |
| Sanitizer.RedactRemoves | integrations/discord/src/adapter.py:18 | redaction leaves no mention and forms none across its edges |
| Sanitizer.RedactKeepsOut | integrations/discord/src/adapter.py:18 | redaction makes no new ping |
| Signature.SignedBytesInjective | packages/shared/src/crypto.py:48 | different timestamps or payloads are never signed as the same bytes |
| Signature.SignedBytesAre | packages/shared/src/crypto.py:48 | the signed bytes are "t=", the timestamp in decimal without leading zeros, a full stop, and the payload |
| Signature.VerdictMeans | packages/shared/src/crypto.py:53-73 | outside the tolerance, valid and mismatch, each exactly when |
| Signature.AcceptsOwnSignatureIff | packages/shared/src/crypto.py:53-73 | a computed signature is accepted exactly within the tolerance |
| Signature.ForeignHeaderNeedsCollision | packages/shared/src/crypto.py:43-73 | a header is accepted for another timestamp or payload only if the keyed hash collides |

## Left out

- Several outbox workers at once, and racing transactions of `mark_read`: the code has no guard there.
- Column-level races of a worker round and a manual retry on one delivery row: a round's row updates take effect together.
- Row timestamps, an endpoint's last success and failure, error texts, initial `delivery_state` and metadata JSON: written once or for display, they decide nothing.
- Live delivery across several server processes: the rooms are per process, so a message sent in one never reaches a socket in another.
- A live send that fails: it takes the socket out of its room, and the protocol model has it as the drop of the connection.
- A second sync on an open socket: clients sync once per connection; `Rooms` has the consequences for the rooms.
- Endpoint filters that parse to something other than a list of strings.
- The socket endpoint's authentication, ping, typing and presence frames, and reconnect delays of the clients.
- Login, enrollment, sessions, audit, attachments, search, webhook URL checks and the HTTP adapters: single-branch checks, I/O, or library behaviour.
- OutboxWorker.Worker.Await: takes no step itself; what other tasks may do is its contract, every stretch of foreign steps.
- OutboxWorker.Worker.RunLoop: a fixed number of passes, where the code loops until it is stopped.
- MessageService.MessageService.WaitForLock: gives up after the caller's patience, where the code waits without limit.
