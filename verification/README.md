# The kernel's log and its caches

The kernel is a small message system. Every operation is appended to an event log. Message queues, the
observer's index, circuit breakers, the usage counters of the state store, the registry's token index and the
redaction maps are all derived from that log or from other stored data, and have to agree with it. This project
models those parts and proves when they agree.

Strings are sequences of bytes: one `char` is one byte. An event is a record (`Events.Event`): its type is the
constructor of its payload, and JSON is not modelled. Time is an integer.

**Messages and recovery.** `KernelRun` is a step system at lock granularity: one Send is an append and later a
queue step or the start of a webhook delivery; one Receive is a dequeue and later one append per message; a
delivery ends in a push that is logged later, or in the fallback queue; a rotation or a crash may happen between
any two steps. The imperative code is in `EventLogs` (`EventLog`), `Messaging` (`Router` and the kernel's
recovery) and `Webhook` (`Delivery`). `Refinement` calls those methods on real log files and queues and shows that
each call is a run of the step system, with a rotation wherever an append filled the file. So the theorems about
all runs (`Places`, `Rotation`, `Capacity`, `PullAgents`) are about them too.

**The log's order.** `events.jsonl`, the newest file, sorts before every `events_<nanos>.jsonl`
(`EventLogs.ListingOrder`), so a rotated log is replayed with its newest part first. The design document says
that after a crash agents "resume exactly where they left off" (`docs/ai_ecosystem_design_doc_audited.md:189`).
The model follows the code. `Places` holds for every run, whatever its restarts read: each sent message is
accounted for, dropped ones included, and `Places.DeliveredAgainIff` says exactly when a delivered one is in the
system again. `Survival` gives the exact queue that replaying a log in any order rebuilds, drop-oldest included, and
with it `KernelRun.RecoveredIff` and `Rotation` say exactly what a restart brings back, for any rotation layout. With
a single log file (`KernelRun.SingleFile`) recovery is exact (`PullAgents.RestartAtRest`, `Capacity.NothingLost`).

**Other parts.** `Observer`, `Stream` and `Resending`: the index, its paging and its WebSocket clients. `StateStore` and
`KeyPaging`: counters, capacity, and cursor paging. `Redaction`, `Pipeline`, `Registry` and `Transparency`.

**Claims that are false of the code.** Each has an input at which it fails and the condition under which it holds. The
states in `Counterexamples` are reachable, that is, they end runs (`KernelRun.ReachableIff`).

| claim | fails at | holds |
|---|---|---|
| a queue step keeps the replayed and the live queue in step | `Counterexamples.OutOfOrderQueuesDiffer` | iff the message is the oldest on its way to its recipient, or a whole queue of later ones is behind it: `PullAgents.QueueStepIff` |
| each message is in exactly one place | `Counterexamples.DeliveredComesBack` | iff at no restart the log has a message that was sent in a rotated file, is delivered only in the current one, and has too few messages after it in the rotated files to push it out: `Places.ExactlyOnePlaceIff`, `KernelRun.NoneReturnsIff` |
| a rotated log is recovered as if replayed in order | `Counterexamples.RotatedOrderDiffers` | iff the same messages survive what is read after them and what is logged after them, and not both a rotated file and the current one contribute: `Rotation.RotationInOrderIff`. If neither replay meets a full queue that is: no message crosses the rotation and not both parts have pending messages, `Rotation.RotationTidyIff`; there both hypotheses are needed (`Counterexamples.InOrderReplayMayDrop`, `Counterexamples.RestartMayDrop`) |
| within capacity nothing is dropped | `Counterexamples.RestartMayDrop` | a restart drops none iff its replay meets no full queue: `Capacity.RestartDropsIff`; over a run, none is dropped and each message is in exactly one place iff no replay of a restart met a full queue and no message crossed its rotation: `Capacity.NothingDroppedIff` |
| the observer's event list is in sequence order | `Stream.SplitRefresh` | iff the new events are not split between the current file and rotated ones: `Observer.RefreshAscendsIff` |
| following `next_cursor` returns every event | `Stream.SplitPagesMiss` | for every page size, iff the matching events ascend: `Stream.PagingIff` |
| a client is sent no event twice | `Stream.SplitBroadcast` | as long as its connection lasts, iff no tick but the last finds the news for it split between the current file and rotated ones: `Resending.NoneTwiceInLogIff` |
| the log records the state store | `StateStore.RefusedWriteIsLogged` | iff no write that readers would see is refused for capacity after it was logged: `StateStore.LogRebuildsStore` |

Two further statements are exact, though their failing inputs do not come from the registry's own addresses and
tokens: the edge between two agents counts their messages iff no other pair in the log has the same key
`from + "->" + to` (`Observer.EdgeCountIff`; registered addresses have no `-`, and `Observer.EventReader.EdgesAreExact`
shows that the count is then right), and the token index makes no difference iff all fitting records show the same
agent (`Registry.IndexNeverMattersIff`).

**Assumptions.** Message ids are unique (`KernelRun.Enabled`: a sent id is new to the log). Rotation stamps have 19
digits and increase (`EventLogs.Clock`): a stamp used twice would overwrite a log file. `maxQueuePerAgent` is at
least 1 and `maxRetries` at least 0, which the code needs. Log lines fit the scanner's buffers. An observer refresh
sees one state of the directory. Calls of `Deliver` for one agent do not overlap. Nothing is appended while a message
is redacted. Usage never goes beyond the range of a 64-bit counter.

## Model

| member | source | states |
|---|---|---|
| Refinement.Send | internal/messaging/messaging.go:63-104 | an uninterrupted Send on real files and queues is the append step, a rotation exactly if the file was filled, then the queue step or the start of a delivery; a refused one is no step |
| Refinement.Deliver | internal/webhook/webhook.go:147-212 | an uninterrupted Deliver is the successful attempt, its append and the rotation it causes, or the fallback step |
| Refinement.Receive | internal/messaging/messaging.go:120-162 | an uninterrupted Receive is the dequeue step and one append step per message, in order, each with the rotation it caused; nothing stays handed over but unlogged; the number handed over is limit, 50 if none is given, at most 100, or all there are if fewer |
| Refinement.RecoverQueues | internal/kernel/kernel.go:70-112 | recovery from the log files is the restart step, for any rotation layout; every recovered message is one that the log records, with its ends, content and time |
| Refinement.AppendOther | internal/logging/eventlog.go:188-223 | appending any other event is a step of its own, with the rotation it caused, and moves no message |
| Refinement.PullsLead | internal/messaging/messaging.go:147-159 | after n of the delivery appends the first n messages are logged and the others still handed over, wherever the file was rotated in between |
| KernelRun.RunGoesOn | internal/kernel/kernel.go:70-112 | any run of the kernel goes on with such steps, so what every reachable state keeps holds after every call |
| KernelRun.SingleFile | internal/logging/eventlog.go:151-168 | without a rotation every restart reads the log in append order |
| KernelRun.RecoveredIff | internal/kernel/kernel.go:70-112 | a restart from any layout brings a message back exactly when no delivery of it is read after it and what is read after it has fewer than maxQueuePerAgent messages at every point |
| KernelRun.NoneReturnsIff | internal/kernel/kernel.go:70-112 | it brings back no message whose delivery is logged exactly when none crosses the rotation with room after it in the rotated files |
| KernelRun.ReachableIff | internal/kernel/kernel.go:70-112 | a state is reachable exactly when some run ends in it |
| Survival.SurvivesIff | internal/messaging/messaging.go:106-118 | replaying a log in any order, full queues or not: a message is in the rebuilt queue exactly when no delivery of it follows and what follows has room for an older message at every point |
| Survival.ReplayedAreSurvivors | internal/kernel/kernel.go:70-112 | the rebuilt queue is the list of those messages, in the order of the replay |
| MessageQueues.ReplayConserves | internal/kernel/kernel.go:70-112 | replaying any log in any order: what was sent is rebuilt or discarded by drop-oldest, except what logged deliveries took out |
| MessageQueues.DeliveredStaysOut | internal/kernel/kernel.go:70-112 | a replay in append order never brings back a delivered message |
| MessageQueues.ReplayedAreLogged | internal/kernel/kernel.go:78-91 | every replayed message is recorded by a logged event: same id, sender, recipient and content, and the event's time |
| Places.StepKeeps | internal/messaging/messaging.go:63-167 | every step, a restart from any rotation layout included, keeps: an id is sent at most once, is in at most one place besides its logged delivery, and until its delivery is logged is in exactly one if it was sent |
| Places.RunKeeps | internal/messaging/messaging.go:63-167 | every state of every run has that invariant, and a causal log |
| Places.SomePlaceInAnyRun | internal/kernel/kernel.go:159-174 | at every state of every run: a sent message is awaiting its trigger, in delivery, queued, handed over unlogged, logged as delivered or dropped; in at most one of these besides its logged delivery; an id never sent is in none |
| Places.DeliveredAgainIff | internal/kernel/kernel.go:70-112 | a delivered message is in the system again exactly when it returned at the last restart - it crosses the rotation and the rotated files leave room for it - and has not been delivered since |
| Places.BalancedUntilRestart | internal/kernel/kernel.go:159-174 | before any restart each message is in exactly one place |
| Places.ExactlyOnePlaceIff | internal/kernel/kernel.go:159-174 | up to any state each message for an agent is in exactly one place if and only if at no restart until then one returned whose delivery was logged, a condition on the log alone |
| Places.ExactlyOnePlace | internal/kernel/kernel.go:159-174 | in such a run a sent message is in exactly one of the six places, once, and an id never sent is in none |
| Places.ReadInOrderIsEnough | internal/kernel/kernel.go:70-112 | where restarts give the agent the queue of a replay in append order, none returns |
| Places.PutKeeps | internal/messaging/messaging.go:106-118 | queueing with drop-oldest moves a message and conserves the count of queued and dropped |
| Places.TakeKeeps | internal/messaging/messaging.go:128-144 | a dequeue moves messages from one queue to the handed ones, and leaves other queues alone |
| Places.RestartLedger | internal/kernel/kernel.go:70-112 | after a restart from any layout each undelivered message is queued or was discarded by drop-oldest during the replay, and nothing else is anywhere |
| Recovery.ReplayIsPending | internal/logging/eventlog.go:237-331 | a replay that meets no full queue rebuilds exactly the sent messages without a logged delivery, in order |
| Recovery.WithinCapNeverFull | internal/messaging/messaging.go:113-115 | if at most maxQueuePerAgent messages are undelivered on every prefix of the log, replay meets no full queue |
| Recovery.PendingGrowth | internal/messaging/messaging.go:180-195 | how one more event changes the undelivered messages |
| Rotation.RotatedRecovery | internal/logging/eventlog.go:151-250 | at any state, full queues or not, the recovered queue is, in listing order, each message that survives what is read after it; if replay meets no full queue, the pending messages of the current file, then those of the older files taken alone |
| Rotation.RotationRecoversIff | internal/logging/eventlog.go:151-250 | which messages come back, full queues or not: each at most once, an undelivered one exactly when what is read after it leaves room, a delivered one exactly when it crosses the rotation and the rotated files leave room |
| Rotation.RotationLosesNothing | internal/logging/eventlog.go:151-250 | if replay meets no full queue, recovery loses no undelivered message, brings none back twice, and the delivered messages it brings back are exactly those sent in a rotated file and delivered only in the current one |
| Rotation.RoomyReturnsIff | internal/logging/eventlog.go:151-250 | if replay meets no full queue, no delivered message returns exactly when none crosses the rotation |
| Rotation.RotationPendingIff | internal/logging/eventlog.go:151-250 | the recovered queue is the undelivered messages in sending order exactly when those and no others survive what is read after them, and not both parts of the log contribute |
| Rotation.RotationInOrderIff | internal/logging/eventlog.go:151-250 | it is that of a replay in append order exactly when the same messages survive in both readings, and not both parts contribute |
| Rotation.RotationTidyIff | internal/logging/eventlog.go:151-250 | the same two statements without full queues: exactly when no message crosses the rotation and one of the two parts has nothing pending |
| Capacity.NothingDroppedIff | internal/messaging/messaging.go:113-115 | while the log shows at most maxQueuePerAgent undelivered messages for the agent: at every state each message is in exactly one place and none was dropped if and only if every restart was safe - its replay meets no full queue and no message crosses the rotation |
| Capacity.RestartDropsIff | internal/messaging/messaging.go:113-115 | within that bound a restart drops none of the agent's messages if and only if its replay meets no full queue, whatever the capacity |
| Capacity.StepIff | internal/messaging/messaging.go:113-115 | within that bound a step keeps each message in one place and drops none if and only if it is not an unsafe restart |
| Capacity.NothingLost | internal/kernel/kernel.go:70-112 | under that bound nothing is dropped, and a safe restart queues every message without a logged delivery exactly once, and no other - in sending order if the log is read in append order |
| Capacity.RestIsRecovered | internal/kernel/kernel.go:70-112 | with webhooks too: when nothing is in flight, the queue a safe restart rebuilds has exactly the messages of the live queue |
| Capacity.SingleFileIsSafe | internal/logging/eventlog.go:151-168 | without a rotation every restart within the bound is safe |
| Capacity.PendingOnce | internal/messaging/messaging.go:180-195 | a message is pending, once, exactly when it was sent and its delivery is not logged |
| PullView.LogSendKeeps | internal/messaging/messaging.go:79-96 | logging a send keeps the relation of the replayed queue to handed, live and awaiting messages |
| PullView.QueueKeeps | internal/messaging/messaging.go:106-118 | queueing the oldest awaiting message, with drop-oldest, keeps it |
| PullView.QueueKeepsIff | internal/messaging/messaging.go:106-118 | queueing any awaiting message keeps it exactly when it is the oldest, or at least maxQueuePerAgent later ones are awaiting |
| PullView.TakeKeeps | internal/messaging/messaging.go:128-144 | a dequeue keeps it |
| PullView.LogDeliveryKeeps | internal/messaging/messaging.go:147-159 | logging one delivery keeps it |
| PullView.TwoCases | internal/messaging/messaging.go:113-118 | the relation in two cases: S ++ live ++ awaiting, or the newest maxQueuePerAgent of live ++ awaiting |
| PullAgents.QueueStepIff | internal/messaging/messaging.go:98-118 | a queue step of the kernel keeps the relation for a pull agent exactly when it takes a message in that turn |
| PullAgents.RestartViewIff | internal/kernel/kernel.go:70-112 | a restart keeps the relation exactly when it reads as if in append order |
| PullAgents.StepKeepsView | internal/messaging/messaging.go:79-195 | for a pull agent every step keeps the relation, if messages queue in their turn and a restart reads as if in append order |
| PullAgents.ReplayAtAnyState | internal/messaging/messaging.go:79-195 | at any state of such a run the queue of such a restart is S ++ live ++ awaiting, S part of what was handed over unlogged, or the last maxQueuePerAgent of live ++ awaiting |
| PullAgents.RestartAtRest | internal/kernel/kernel.go:70-112 | with nothing handed over unlogged and nothing awaiting, a restart rebuilds the live queue, order and drop-oldest included, exactly when it reads as if in append order |
| Counterexamples.OutOfOrderQueuesDiffer | internal/messaging/messaging.go:79-100 | two sends queued against log order: live and recovered queues differ |
| Counterexamples.RotatedOrderDiffers | internal/logging/eventlog.go:166-171 | a rotation between two sends: recovery has them in the wrong order |
| Counterexamples.DeliveredComesBack | internal/logging/eventlog.go:166-171 | a rotation between a message and its delivery: recovery brings the delivered message back, which is then in two places |
| Counterexamples.InOrderReplayMayDrop | internal/logging/eventlog.go:166-171 | a tidy rotation whose replay meets no full queue, recovered unlike a replay in order, which drops |
| Counterexamples.RestartMayDrop | internal/messaging/messaging.go:113-115 | a log within capacity, tidy and never full in append order, whose rotated replay meets a full queue: an undelivered message is dropped |
| Messaging.Router.constructor | internal/messaging/messaging.go:45-51 | a router starts with no queues |
| Messaging.Router.QueueMessage | internal/messaging/messaging.go:106-118 | appends to one queue, trading its oldest message when full |
| Messaging.Router.Send | internal/messaging/messaging.go:63-104 | both refusals leave no trace; otherwise the event is logged and the message queued or handed to a delivery, never both |
| Messaging.Router.Take | internal/messaging/messaging.go:128-144 | the oldest messages in order, as many as the limit says if there are so many, the rest stays; default 50, at most 100 |
| Messaging.Router.Receive | internal/messaging/messaging.go:120-162 | that many messages leave the queue in order and one delivery event each is logged in that order |
| Messaging.Router.ApplyMessageDelivered | internal/messaging/messaging.go:180-195 | removes the first message with the id from that recipient's queue only |
| Messaging.ReplayFile | internal/logging/eventlog.go:252-331 | replaying a file acts on each agent's queue as the fold of its events |
| Messaging.Recover | internal/kernel/kernel.go:70-112 | the recovered queues are the fold over all events in listing order, current file first; every message in them is recorded by the log with that id, sender, recipient, content and time |
| Messaging.RecoverIsRestart | internal/kernel/kernel.go:70-112 | recovery from the files is the restart of the step system, rotated part and all |
| EventLogs.RotatedLess | internal/logging/eventlog.go:229-229 | names of rotated files sort in order of their stamps |
| EventLogs.CurrentFirst | internal/logging/eventlog.go:166-171 | the current file's name sorts before every rotated one |
| EventLogs.DecimalValue | internal/logging/eventlog.go:225-235 | the stamp in a rotated name is the decimal rendering of the number |
| EventLogs.LogNameIff | internal/logging/eventlog.go:151-168 | the log files are the names that end in .jsonl |
| EventLogs.SizeConcat | internal/logging/eventlog.go:188-223 | the size of a file is the sum of its lines' lengths |
| EventLogs.ListingOrder | internal/logging/eventlog.go:151-168 | the listing is the current file, then the rotated ones oldest first |
| EventLogs.EventLog.constructor | internal/logging/eventlog.go:93-114 | the sequence number found is the maximum over all files, whatever the listing order |
| EventLogs.EventLog.ScanFileForSeq | internal/logging/eventlog.go:131-149 | the maximum of one file and the number found so far |
| EventLogs.EventLog.ScanExistingLogs | internal/logging/eventlog.go:116-129 | no event in any file has a higher number, and one has it unless it is 0 |
| EventLogs.EventLog.Append | internal/logging/eventlog.go:188-223 | the next number, added at the end of the history, rotating exactly when the file is full |
| EventLogs.EventLog.Rotate | internal/logging/eventlog.go:225-235 | renaming the current file changes neither the history nor the next number |
| EventLogs.RotateHistory | internal/logging/eventlog.go:225-235 | the renamed file is the newest of the rotated ones and nothing is overwritten |
| EventLogs.ExactlyOneFile | internal/logging/eventlog.go:188-235 | every event of the history is in exactly one file |
| EventLogs.ScannedMaximum | internal/logging/eventlog.go:116-149 | for a numbered history the number found is that of its last event |
| EventLogs.Reopen | internal/logging/eventlog.go:93-114 | a restart finds the same history and goes on with the next number |
| Webhook.BreakersAreIndependent | internal/webhook/webhook.go:149-157 | an agent's breaker depends on that agent's deliveries only |
| Webhook.OpenIff | internal/webhook/webhook.go:147-212 | the breaker is open exactly when at least cbThreshold deliveries gave up with no success since, and the last of them less than cbDuration ago; rejected and interrupted ones do not count |
| Webhook.TriedIff | internal/webhook/webhook.go:159-197 | the outcomes of attempts and waits determine how a call ends, and after how many attempts |
| Webhook.Delivery.constructor | internal/webhook/webhook.go:80-133 | no circuit is open at the start |
| Webhook.Delivery.Deliver | internal/webhook/webhook.go:147-212 | refused exactly when enough deliveries in a row gave up recently, with no attempt; otherwise it ends with the first success, the first wait cut off, or after maxRetries + 1 failures; and in exactly one of a logged push and the fallback queue |
| Webhook.Delivery.BreakerOpen | internal/webhook/webhook.go:149-157 | the stored circuit is open exactly when the last failures in a row reach the threshold and are recent |
| Webhook.Delivery.Attempts | internal/webhook/webhook.go:159-197 | which attempts were made given the network and the waits, and that the waits double |
| Webhook.Delivery.Settle | internal/webhook/webhook.go:174-209 | the failure counter is the number of exhausted deliveries since the last success |
| Webhook.Delivery.HandOver | internal/webhook/webhook.go:180-255 | a push is logged, anything else goes to the pull queue |
| Webhook.TriedBounds | internal/webhook/webhook.go:159-172 | at most maxRetries + 1 attempts and 2^maxRetries - 1 seconds of backoff |
| Observer.EventReader.constructor | internal/observe/eventreader.go:50-81 | a new reader holds the whole history |
| Observer.EventReader.LoadAll | internal/observe/eventreader.go:64-81 | the index is that of all events in listing order |
| Observer.EventReader.LoadFile | internal/observe/eventreader.go:102-130 | one file's events are appended and indexed, and the highest number kept |
| Observer.EventReader.LoadFileAfter | internal/observe/eventreader.go:232-264 | the same for the events above the number given |
| Observer.EventReader.IndexEvent | internal/observe/eventreader.go:132-186 | one event's effect on counters and edges |
| Observer.EventReader.Refresh | internal/observe/eventreader.go:212-230 | after every refresh the reader holds every logged event exactly once, across rotations |
| Observer.UnreadIsAppended | internal/observe/eventreader.go:212-264 | the events above the number captured before the file loop are exactly those appended since, wherever they are now |
| Observer.StatsAreTallies | internal/observe/eventreader.go:132-186 | the incremental counters are counts over the events |
| Observer.RecordIff | internal/observe/eventreader.go:132-186 | there is a record of an agent, under its own address, exactly when an event mentions it |
| Observer.LastActiveIs | internal/observe/eventreader.go:132-186 | lastActive is the time of the last event read in which the agent sent, wrote, deleted or read; being sent a message does not count |
| Observer.RegisteredAtIs | internal/observe/eventreader.go:132-186 | registeredAt is the time of the registration if that is the first event read that mentions the agent, and unset otherwise |
| Observer.TallyOrder | internal/observe/eventreader.go:64-81 | counts do not depend on the order in which files are read |
| Observer.EventReader.CountersAreExact | internal/observe/eventreader.go:132-264 | sent, received and state-write counters are counts over the whole log |
| Observer.EdgesAreTallies | internal/observe/eventreader.go:150-165 | an edge counts the messages whose pair has its key |
| Observer.EdgeCountIff | internal/observe/eventreader.go:150-165 | it counts the messages of its own pair exactly when no other pair in the log has its key |
| Observer.EventReader.EdgesAreExact | internal/observe/eventreader.go:132-264 | for addresses without '-' there is one edge per pair that exchanged messages, with their number over the whole log |
| Observer.RefreshAscendsIff | internal/observe/eventreader.go:212-264 | a refresh keeps the list in sequence order exactly when its new events are all in the current file or all in rotated ones |
| Stream.FirstMatches | internal/observe/eventreader.go:283-298 | the collecting loop stops with the first matching events, at most a page of them |
| Stream.MatchingIff | internal/observe/eventreader.go:283-321 | the filter lets through exactly the events above the number that are of the agent named and of a type named, as often as the list has them |
| Stream.QueryEvents | internal/observe/eventreader.go:267-321 | the first wanted events after the cursor: of the agent named, if any, and of a type named, if any; all of them if the page is not full; the cursor is the last number; hasMore says whether the page is full and another wanted event has a higher number |
| Stream.PageCuts | internal/observe/eventreader.go:267-321 | on an ascending list hasMore is true exactly when a match remains, and the cursor leaves exactly the rest |
| Stream.PagesAreComplete | internal/observe/eventreader.go:267-321 | following nextCursor returns the matching events, each once, in order, for any filter and limit |
| Stream.PagingIff | internal/observe/eventreader.go:267-321 | it does so for every limit exactly when the matching events ascend |
| Stream.NewEventsAfter | internal/observe/eventreader.go:378-408 | exactly the wanted events after a number, in list order |
| Stream.Connect | internal/observe/websocket.go:57-87 | a new client is in step with any index, also one loaded out of order from a rotated log |
| Stream.SendNewEvents | internal/observe/websocket.go:146-170 | one tick for one client: the matching events above its last number, in list order, as far as writes succeed; it is sent no event its filter excludes |
| Stream.BroadcastNewEvents | internal/observe/websocket.go:138-171 | the same for every client, independently; one in step has been sent a prefix of what it is due, further by as many events as writes succeeded |
| Stream.Tick | internal/observe/websocket.go:124-127 | a refresh and a broadcast; every client stays in step with the log if the news for it ascends, whatever the order of older events |
| Stream.BroadcastLoop | internal/observe/websocket.go:117-136 | over any series of ticks, what each client has been sent, for any success of writes; where news ascends, a prefix of the matching events after its connect sequence, without gap or repeat, and all of them if the writes of the last tick sufficed |
| Stream.NewsAscendsIff | internal/observe/eventreader.go:212-230 | the news of a refresh ascends exactly when it is not split between the current file and rotated ones |
| Stream.DueAscendsIff | internal/observe/websocket.go:146-147 | after a refresh what a client is due ascends exactly when the news for it does |
| Stream.SplitRefresh | internal/observe/eventreader.go:212-230 | append 1, load, append 2 which fills the file, append 3, refresh: the reader holds 1, 3, 2 |
| Stream.SplitPagesMiss | internal/observe/eventreader.go:267-321 | there pages of one event never show event 2 |
| Stream.SplitStreamRepeats | internal/observe/websocket.go:146-170 | there a client that connected after event 1 is sent 3, 2 and then 3 again |
| Stream.SplitBroadcast | internal/observe/websocket.go:117-171 | the same on a real log: connect after event 1, append 2 and 3 across a rotation, two ticks |
| Resending.ResentIff | internal/observe/websocket.go:146-170 | once a client has been sent its news, nothing matches any more exactly when that news ascends; otherwise the next tick sends part of it again |
| Resending.NotSplitIff | internal/observe/eventreader.go:212-230 | the news for a client ascends exactly when it is in the current file alone or in rotated ones alone |
| Resending.NoneTwiceIff | internal/observe/websocket.go:117-171 | over any series of ticks, until a write fails, a client that had been sent all it was due is never sent an event twice exactly when all its news but the last tick's ascends |
| Resending.NoneTwiceInLogIff | internal/observe/websocket.go:57-171 | for a client that connects, in terms of the log files: exactly when no tick but the last finds its news split |
| Resending.WrittenMissNone | internal/observe/websocket.go:117-171 | while all writes succeed a client has been sent exactly the events it is due, split news or not |
| Resending.InStepAfter | internal/observe/websocket.go:117-171 | while the news ascends it has been sent a prefix of them whatever writes failed, and all if the last tick's writes succeeded |
| StateStore.Store.constructor | internal/state/state.go:48-93 | the counters start as the sum over the stored entries and their number |
| StateStore.Store.Scan | internal/state/state.go:73-86 | the scan computes that sum and that number |
| StateStore.SetOutcomeIff | internal/state/state.go:136-204 | each outcome of a write: refused for capacity exactly when key and value are short enough and the store with the entry in place of the old one would hold too many bytes |
| StateStore.Store.Set | internal/state/state.go:136-204 | each outcome exactly, capacity refusal included; each refusal leaves the bucket as it was; the write is logged unless key or value is too long; counters stay the sum and the number; usage never exceeds the larger of its value and the capacity |
| StateStore.Store.Delete | internal/state/state.go:206-248 | removes one key and its bytes, reports it missing or too long, each exactly when it is |
| StateStore.Store.ApplyStateWrite | internal/state/state.go:338-365 | counters stay exact without a capacity check |
| StateStore.Store.ApplyStateDelete | internal/state/state.go:367-382 | counters stay exact, whether the key was there or not |
| StateStore.CapacityBound | internal/state/state.go:136-248 | over any run of Set and Delete usage is at most the larger of its start and maxCapacity |
| StateStore.AgreementIff | internal/state/state.go:157-189 | a call keeps log and store in agreement exactly when it is not a logged write refused for capacity that readers would see |
| StateStore.LogRebuildsStore | internal/state/state.go:136-248 | folding the logged events gives value and writer of every live key throughout a run of Set and Delete exactly when no write that readers would see is logged and then refused |
| StateStore.Rebuild | internal/state/state.go:338-382 | ApplyStateWrite and ApplyStateDelete over the logged events, from an empty store, give that fold |
| StateStore.RefusedWriteIsLogged | internal/state/state.go:157-189 | a refused write that the log shows |
| Names.PrefixConvex | internal/state/state.go:309-319 | between two keys with a prefix, in byte order, all keys have it |
| KeyPaging.HasPrefixLoop | internal/state/state.go:309-319 | the loop decides the prefix relation |
| KeyPaging.ListKeys | internal/state/state.go:250-307 | a page is the next matching keys above the cursor, next_cursor its last key when more follow, total the number of all matching keys |
| KeyPaging.Collect | internal/state/state.go:287-295 | the loop stops at the limit or at the end of the run of matching keys |
| KeyPaging.CountMatching | internal/state/state.go:262-270 | the total, by bucket size or by a scan |
| KeyPaging.RunIsBeyond | internal/state/state.go:250-307 | what the cursor loop walks over is exactly the sorted list of matching keys above the cursor |
| KeyPaging.ListingIsComplete | internal/state/state.go:250-307 | with any writes between pages, even deleting the cursor key: ascending, no repeats, and every matching key present throughout is listed |
| KeyPaging.FixedStoreListing | internal/state/state.go:250-307 | on a fixed store the listing is exactly the matching keys in order |
| KeyPaging.ListingTerminates | internal/state/state.go:250-307 | and ends after at most one request more than there are keys |
| Redaction.RedactInFile | internal/remove/message.go:60-142 | one file's lines with the first matching message cleared, and its old content |
| Redaction.RedactMessage | internal/remove/message.go:24-42 | in listing order, the first file that has the message is rewritten and no other; the list of all events changes at its first match only |
| Redaction.OnlyContentChanges | internal/remove/message.go:81-112 | only content and length of exactly one event change, to the notice and 0: no number, time, agent, sender, recipient or order |
| Redaction.RedactionCommutes | internal/remove/message.go:24-142 | replaying a redacted log, read in any order, gives the replayed queue with that message's content replaced, as the id was sent once |
| Redaction.ReplayCommutes | internal/remove/message.go:24-142 | the same for a log in which every message with that id is cleared |
| Redaction.RedactionIsHarmless | internal/remove/message.go:24-142 | recovered queues keep ids, senders and order; observer counters, edges and the next number do not change |
| Pipeline.ReverseRunes | internal/verification/verification.go:276-281 | the in-place swap loop reverses the array |
| Pipeline.ExecutePipeline | internal/verification/verification.go:272-320 | the loop computes the interpreter of the parsed operations |
| Pipeline.OpMeans | internal/verification/verification.go:272-320 | what the operations reverse, sha256, uppercase, lowercase and rot13 do, by name |
| Pipeline.CodecMeans | internal/verification/verification.go:283-294 | what base64_encode, base64_decode and hex_encode do, by name |
| Pipeline.TextOpMeans | internal/verification/verification.go:309-313 | prepend:x puts x in front, append:x behind |
| Pipeline.ParseUnknown | internal/verification/verification.go:315-316 | every other name is unknown |
| Pipeline.UnknownOp | internal/verification/verification.go:315-316 | an unknown operation fails with its name |
| Pipeline.UpperIs | internal/verification/verification.go:300-301 | upper case leaves no small letter, changes nothing else, and can be undone by lower case |
| Pipeline.LowerIs | internal/verification/verification.go:303-304 | the same for lower case |
| Pipeline.Rot13Is | internal/verification/verification.go:322-333 | the first half of each alphabet moves on by 13, the second back, nothing else moves |
| Pipeline.HexIs | internal/verification/verification.go:293-294 | each byte is two digits in lower case, the high one first |
| Pipeline.SextetIs | internal/verification/verification.go:283-284 | the alphabet is that of table 1 of RFC 4648 |
| Pipeline.Vectors | internal/verification/verification.go:283-284 | the vectors of section 10 of RFC 4648 up to three bytes |
| Pipeline.LongVector | internal/verification/verification.go:283-284 | the one of six bytes |
| Pipeline.DecodesIff | internal/verification/verification.go:286-291 | apart from line breaks exactly the texts in whole quanta of the alphabet decode, with at most two '=' at the very end |
| Pipeline.BreaksSkipped | internal/verification/verification.go:286-291 | a line break makes no difference to base64_decode |
| Pipeline.Composition | internal/verification/verification.go:272-320 | running concatenated operation lists is running the second on the result of the first, failures included |
| Pipeline.GenerateOperations | internal/verification/verification.go:252-269 | always eight operations the interpreter knows: the simple one picked, or the drawn suffix in front or behind, as drawn |
| Pipeline.GeneratedRuns | internal/verification/verification.go:252-320 | every such pipeline runs without error on a 32-character hex seed; after k operations the string is ASCII of length 32 to 32 * 2^k |
| Pipeline.ReverseTwice | internal/verification/verification.go:276-281 | reverse twice is the identity |
| Pipeline.Rot13Twice | internal/verification/verification.go:322-333 | rot13 twice is the identity |
| Pipeline.Base64Inverse | internal/verification/verification.go:283-291 | base64_decode undoes base64_encode, as in section 4 of RFC 4648 |
| Registry.AgentRegistry.RegisterAgent | internal/registry/registry.go:264-329 | the new token authenticates with the record's address, operator, webhook and time; a token that fits neither it nor a record it replaces succeeds or fails as before, even if its index entry was overwritten |
| Registry.AgentRegistry.AuthenticateAgent | internal/registry/registry.go:331-381 | index first, scan behind it: the agent has address, operator, webhook and time of a stored record whose hash fits the token; refused only if none fits |
| Registry.AgentRegistry.ScanAll | internal/registry/registry.go:357-374 | the first fitting record in key order, unreadable ones skipped, field by field |
| Registry.ScannedFits | internal/registry/registry.go:357-374 | the scan succeeds exactly when some record fits, and returns one that does |
| Registry.ScannedFirst | internal/registry/registry.go:357-374 | the scan returns the fitting record with the least key, and nothing only if none fits |
| Registry.AuthenticatedShows | internal/registry/registry.go:331-381 | whatever the index holds, the agent returned shows the fields of a fitting record |
| Registry.SharedEntryIff | internal/registry/registry.go:37-43 | two long tokens share an index entry exactly when their bytes 8 to 15 agree; a short one is its own |
| Registry.IndexIsTransparent | internal/registry/registry.go:331-381 | whatever the index holds, authentication succeeds exactly when a full scan does; same agent if at most one record fits |
| Registry.IndexNeverMattersIff | internal/registry/registry.go:331-381 | no index content ever changes the result exactly when all fitting records show the same agent |
| Transparency.AppendTransparencyEntry | internal/remove/transparency.go:23-44 | a file of entries becomes the file of those entries and this one |
| Transparency.SplitLines | internal/remove/transparency.go:76-89 | joining the lines gives the data back, with or without a last newline |
| Transparency.JoinedInjective | internal/remove/transparency.go:76-89 | newline-free lines are determined by their joined text, so splitting undoes joining |
| Transparency.ListRemovals | internal/remove/transparency.go:53-74 | entries appended come back, all and in order; empty and unreadable lines are skipped |
| Transparency.ParsedEncoded | internal/remove/transparency.go:23-74 | encoding and parsing line by line is the identity on entries |
| Transparency.ParsedConcat | internal/remove/transparency.go:53-74 | entries are parsed line by line |
| Transparency.ParsedOne | internal/remove/transparency.go:53-74 | an empty or unreadable line gives no entry, any other its own |
| Transparency.KeyReasonIs | internal/observe/transparency.go:74-76 | the reason shown of a key is that of the last entry that removed it, and none without one |
| Transparency.MessageReasonIs | internal/observe/transparency.go:77-79 | the reason shown of a message is that of the last entry that redacted it, and none without one |
| Transparency.TransparencyLog.constructor | internal/observe/transparency.go:33-45 | a new log shows the file's readable entries |
| Transparency.TransparencyLog.Load | internal/observe/transparency.go:47-82 | line by line, empty and unreadable ones skipped: the entries are added in order, and each map holds, per key or message id, the reason of its last matching entry |
| Transparency.TransparencyLog.Refresh | internal/observe/transparency.go:113-121 | the maps are those of the new file, nothing stale remains |

## Left out

- JSON, UUIDs, bcrypt, SHA-256, DNS checks and sockets: opaque data, ids assumed unique, abstract predicates and functions, and one outcome per attempt.
- fsync, torn lines, failing commits and failing appends: an append or a transaction succeeds and is atomic. Events that do not parse are left out, so a listed file is a list of events.
- Messaging.Router.Send: does not model a missing event log or trigger, because the kernel sets both; whether the recipient has a webhook is a parameter, and the step system allows either.
- Refinement.Receive: one call at a time; interleaved calls are runs of the step system, where a handed-over message may be logged in any order, which allows more than the loop does.
- PullAgents.ReplayAtAnyState: compares messages without their times, because a replayed message has the time of its log entry and a live one the time of Send.
- PullAgents.StepKeepsView: a restart that does not read as if in append order is not covered, because the relation is false after it (`PullAgents.RestartViewIff`).
- Webhook.Delivery.Deliver: one call at a time, because overlapping calls for one agent share a circuit without a guarantee; the overflow of the backoff shift for a huge maxRetries is not modelled. A crash after a push and before its event is logged delivers the message again: the step system has that run.
- EventLogs.EventLog.constructor: finds the maximum of any directory, but promises the class invariant only for a directory with a numbered history and proper stamps.
- Observer.EventReader.Refresh: one state of the directory per refresh, because a rotation in the middle can hide events.
- Stream.SendNewEvents: replaces no content of redacted messages, which happens on the way out and changes neither number nor order; ping, pong and the connection limit are left out.
- Resending.NoneTwiceIff: covers a connection until a write fails, because the hub closes it then.
- KeyPaging.ListKeys: for a cursor without the prefix, which no listing returns, only what the loop collects is stated.
- Redaction.RedactMessage: the entry it appends to the transparency log is that of `Transparency.AppendTransparencyEntry`; hashing the old content is left out.
- Pipeline.ExecutePipeline: follows ASCII strings only; a base64_decode or hex result outside ASCII is not followed, and no generated pipeline has one.
- StateStore.Store.Set: the limits of the key-value store other than the refusal of an empty key are left out.
- Registry.AgentRegistry.RegisterAgent: address, token and hash are given, not drawn; its log event is an append like any other (`Refinement.AppendOther`).
- Registry.AgentRegistry.AuthenticateAgent: agents only; the operator path is the same code over other buckets.
- Get, GetCapacity, ListAgents, the observer's ListState, the pending challenges and their expiry, removal of state values, rate limits, HTTP handlers, configuration and command-line tools: easier repeats or plumbing.
- The user interface.
