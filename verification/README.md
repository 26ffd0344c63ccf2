# Guardian, modelled and verified

Guardian watches camera frames on a phone, confirms hazards there, and reports them over an
unreliable network to a Go connector, which stores each event once, polls and receives
events of two simulated providers, and sends commands back. This Dafny project models the
logic between the I/O calls and proves what that logic promises. `dafny verify
dfyconfig.toml` checks everything.

| Part | Modules |
|---|---|
| Edge-to-cloud delivery: outbox, network, ingest, storage, publication | `Outbox`, `Ingest`, `Delivery`, `DeliveryOutcomes`, `Events`, `EventOutcomes`, `Fanout`, `Domain` |
| Confirmation of hazards over a sliding window | `Confirmation`, `ConfirmationTheory`, `ConfirmationOutcomes` |
| Command lifecycle | `Commands`, `CommandService`, `CommandsTheory`, `CommandOutcomes` |
| Provider polling, retries, tokens | `Poller`, `Alerts`, `AlphaSense`, `OAuth`, `TokenOutcomes`, `Retry` |
| Webhook | `Webhook`, `WebhookOutcomes` |
| Detection: tensor decoding, suppression, letterbox | `Decoder`, `PostProcessor`, `Nms`, `NmsTheory`, `Letterbox`, `DetectionOutcomes` |
| Frames into tensors | `Nv21`, `Preprocessor`, `Arithmetic` |
| JSON writer | `Json` |

Code that changes state is a class or an array method proved against a specification
function; the theorems are about those functions and, for the protocols, about every run of
a step relation. The modules named `...Outcomes` say what each operation comes to in terms of
the replies, fields and numbers it meets, without the functions that specify it.

Everything outside (gateways, providers, token endpoint, clock, database faults) is a
parameter ranging over all behaviours. A database statement is one atomic step that can work,
fail, or commit and lose its answer.

Where the code and the text around it disagree, the model follows the code:

- Event deduplication is per source and key (`cloud-connector/migrations/0001_init.sql:50`),
  not per device as the comment in `cloud-connector/internal/domain/domain.go:118-120` says.
- The webhook gate commits before processing, so a storage failure in between loses the
  event although the provider later sees 200.
- A malformed alert makes `FetchEvents` return an error beside good events; the poller then
  drops them all and keeps its watermark.
- The phone's backoff exponent is `attempt - 1`, capped at 20; its comment says `attempt`.
  `Retry.CommentIsMetIff` says when the two agree.
- Suppression keeps one box even for a cap of zero or less.
- A heartbeat with an unknown state leaves the device's status unknown: the upsert keeps what
  is known, as its comment says, and the touch right after it does not.
- With a model of more than three channels a reused tensor keeps old values behind the
  third; the comment beside the buffer speaks of avoiding allocation only.
- A retry policy without a maximum (2^63 - 1) panics when its shift wraps, because the draw
  adds one to the ceiling.
- The adapter accepts an alert confirmed at the zero time, which validation then rejects.

Hypotheses the theorems name rather than hide: clocks that do not go back (frame times,
the database, the token manager), freshness of generated identifiers, and a provider that
lists an alert it has made visible whenever it is asked about an earlier instant and, for the
results about lost events, not when it is asked about a later one.

## Model

| member | source | states |
|---|---|---|
| `Delivery.ExactlyOnceStorage` | core/cloud/src/main/kotlin/com/axior/guardian/core/cloud/QueueingCloudReporter.kt:81-98 | In every run with lost, delayed or repeated requests, lost answers, failing statements and dying handlers: no event id is stored twice under one source; for every event a phone counts as delivered one event with its id is stored, its own unless another request posted a different event under that id; and every stored edge event is what some phone posted. |
| `Delivery.PublishedAtMostOnce` | cloud-connector/internal/events/events.go:55-82 | In every run a stored event is published at most once and only if stored; it was published exactly once unless its handler is between insert and publish, died there, or lost the answer of its insert. |
| `Delivery.PublishedExactlyOnce` | cloud-connector/internal/events/events.go:61-81 | Without crashes, once no handler is between insert and publish, an event is stored iff it was published exactly once. |
| `Delivery.PostsAreBounded` | core/cloud/src/main/kotlin/com/axior/guardian/core/cloud/QueueingCloudReporter.kt:74-98 | However the network behaves, a phone posts an event at most as often as its limit, in report order. |
| `Delivery.RunsKeepInvariant` | cloud-connector/internal/ingest/ingest.go:152-202 | One step of any phone, handler, network or other source keeps the whole protocol invariant: the books of the table, the origin of rows, the promises of answers and the beliefs of phones. |
| `Delivery.NewAnswers` | cloud-connector/internal/ingest/ingest.go:188-201 | A handler answers 2xx only for an event that is in the table at that moment. |
| `Delivery.HearDelivers` | core/cloud/src/main/kotlin/com/axior/guardian/core/cloud/QueueingCloudReporter.kt:89-90 | A phone starts to count an event as delivered only on a success given for that very event. |
| `Delivery.HandlerIsPostEvent` | cloud-connector/internal/ingest/ingest.go:152-202 | The three interleavable steps of the handler, run without interference, have exactly the effect and answer of the endpoint as one call. |
| `DeliveryOutcomes.UndisturbedDeliverySucceeds` | core/cloud/src/main/kotlin/com/axior/guardian/core/cloud/QueueingCloudReporter.kt:81-98 | When a post arrives, its handler is not disturbed and the answer comes back, the phone counts the event as delivered and the connector has it. |
| `Ingest.Api.PostEdgeEvent` | cloud-connector/internal/ingest/ingest.go:152-202 | The endpoint over the event pipeline: 400 for a body that does not decode, names no device or fails validation; 500 for storage errors; 202 otherwise, with the database it leaves. |
| `Ingest.EdgeEventIsValidIff` | cloud-connector/internal/ingest/ingest.go:173-188 | The event made of a body is valid iff it has an id, a known type, a confidence in [0, 1] and a positive confirmation time; a missing time stays the zero time. |
| `Ingest.PostIsIdempotent` | cloud-connector/internal/ingest/ingest.go:152-201 | A 202 promises a stored event; posting it again stores and publishes nothing more, and is answered 202 again whenever the database works. |
| `Ingest.RefusedForGood` | cloud-connector/internal/ingest/ingest.go:158-199 | A 400 blames the body: it stored nothing and no behaviour of the database would have. |
| `EventOutcomes.PostOutcome` | cloud-connector/internal/ingest/ingest.go:152-202 | One post, by the fields of its body: the status, the device (online, with its version and time last seen) and the stored and published event, field by field. |
| `Outbox.Reporter.ReportItem` | core/cloud/src/main/kotlin/com/axior/guardian/core/cloud/QueueingCloudReporter.kt:53-72 | Reporting appends, dropping the oldest entry of a full queue, and does nothing when disabled or closed. |
| `Outbox.Reporter.DeliverItem` | core/cloud/src/main/kotlin/com/axior/guardian/core/cloud/QueueingCloudReporter.kt:81-98 | The retry loop around one item, with reports arriving during every post: the specified queue, posts and fates; how many posts were made and what became of the item, by the exchanges met. |
| `Outbox.DeliveryIsRun` | core/cloud/src/main/kotlin/com/axior/guardian/core/cloud/QueueingCloudReporter.kt:81-98 | A delivery is a run of the outbox with at least one post and no more than the attempts left. |
| `Outbox.Reporter.PostOnce` | core/cloud/src/main/kotlin/com/axior/guardian/core/cloud/QueueingCloudReporter.kt:84-96 | One post: accepted and refused items leave, a transient failure is retried until the limit is reached. |
| `Outbox.Reporter.Drain` | core/cloud/src/main/kotlin/com/axior/guardian/core/cloud/QueueingCloudReporter.kt:74-79 | The worker takes the oldest item and delivers it, over and over; the whole resulting outbox, which keeps its invariant. |
| `Outbox.RunsKeepInvariant` | core/cloud/src/main/kotlin/com/axior/guardian/core/cloud/QueueingCloudReporter.kt:53-98 | Every run keeps: the queue is the most recent items that have not left it, within capacity; an item overflowed only with a full queue of fresher items behind it; every item is posted as often as its fate says; posts go out in report order. |
| `Outbox.Conservation` | core/cloud/src/main/kotlin/com/axior/guardian/core/cloud/QueueingCloudReporter.kt:53-98 | In every run, reported items are exactly those delivered, refused, given up, overflowed, in flight or queued. |
| `Outbox.PostsWithinLimit` | core/cloud/src/main/kotlin/com/axior/guardian/core/cloud/QueueingCloudReporter.kt:75-77 | An event is posted at most max(maxAttempts, 1) times and telemetry at most twice. |
| `Outbox.DeliveryOutcome` | core/cloud/src/main/kotlin/com/axior/guardian/core/cloud/QueueingCloudReporter.kt:81-98 | One delivery, by the exchanges met: the posts made go up to the first exchange that is a 2xx, a 4xx other than 429, or a failure that is not of the connection, and no further than five attempts (as configured, at least one) for an event and two for telemetry; the item is delivered, refused or given up accordingly. |
| `Outbox.DrainEmptiesQueue` | core/cloud/src/main/kotlin/com/axior/guardian/core/cloud/QueueingCloudReporter.kt:74-79 | A worker that nobody hands new items empties the queue in as many rounds as items waited, and settles the fate of each. |
| `Events.Service.Insert` | cloud-connector/internal/storage/storage.go:223-240 | Insert-or-ignore on (source, dedup key), including a statement that commits and loses its answer. |
| `Events.Service.AcceptEvent` | cloud-connector/internal/events/events.go:55-82 | Validate, insert, publish: the whole new database and answer. |
| `Events.Service.AcceptProviderEvent` | cloud-connector/internal/events/events.go:87-101 | Resolves the provider's device first, then accepts. |
| `Events.Service.Upsert` | cloud-connector/internal/storage/storage.go:120-138 | Inserts or refreshes a device by provider and external id, merging name, status, version and time last seen, and returns its identifier. |
| `Events.Service.Touch` | cloud-connector/internal/storage/storage.go:141-146 | Sets the status of a known device and moves its time last seen forward only. |
| `Events.MergeKeepsKnowledge` | cloud-connector/internal/storage/storage.go:118-133 | A sighting erases nothing known and never moves the time last seen back; whatever it does say is taken over; the same sighting twice is the sighting once. |
| `Events.SightingsCommuteInTime` | cloud-connector/internal/storage/storage.go:132 | Two sightings leave the same time last seen in either order. |
| `Events.UpsertKeepsIds` | cloud-connector/internal/storage/storage.go:118-138 | A known device keeps its identifier for good, a new one gets the fresh one; every other device and all events stay as they are. |
| `Events.AcceptIsSound` | cloud-connector/internal/events/events.go:55-82 | Accepting keeps unique keys, published-implies-stored and validity; an accepted event's key is stored; it is stored and published iff valid, new and the statement worked. |
| `Events.AcceptFromProviderIsSound` | cloud-connector/internal/events/events.go:87-101 | The same through device resolution; with a working database a valid event is always accepted. |
| `Events.DedupIgnoresDevice` | cloud-connector/migrations/0001_init.sql:50 | Deduplication is per source, not per device: a second device reusing an event id is told "accepted" and its event is not stored. |
| `Fanout.Hub.PublishAll` | cloud-connector/internal/events/events.go:135-144 | Publishing offers to every open channel without blocking; a full buffer drops for that subscriber only. |
| `Fanout.Hub.SubscribeNew` | cloud-connector/internal/events/events.go:119-133 | A subscription adds a fresh open channel and returns its number. |
| `Fanout.Hub.CancelOne` | cloud-connector/internal/events/events.go:119-133 | A cancellation closes that channel and no other. |
| `Fanout.FeedsAreFaithful` | cloud-connector/internal/events/events.go:119-144 | In every run what a subscriber has received and still holds is, in order, what was published between its subscription and its cancellation less what was dropped; complete if nothing was dropped; never more than the buffer is held. |
| `Fanout.OffersAreDue` | cloud-connector/internal/events/events.go:119-144 | From any state a channel is offered exactly what is published while it is subscribed. |
| `Fanout.SubscribersAreIsolated` | cloud-connector/internal/events/events.go:135-143 | Each subscriber's channel evolves as if it were the only one. |
| `Fanout.FewAreNeverDropped` | cloud-connector/internal/events/events.go:119-144 | A subscriber that is due no more than sixteen events misses none, however slow it is. |
| `Fanout.ReadersCatchUp` | cloud-connector/internal/events/events.go:119-133 | A reader that keeps reading gets everything that waits, in order, from a closed channel too. |
| `Confirmation.Engine.Process` | core/detection/src/main/kotlin/com/axior/guardian/core/detection/SlidingWindowEventConfirmationEngine.kt:25-48 | One frame through the deques and the cooldown map equals the specified steps, detection by detection. |
| `Confirmation.Engine.Evict` | core/detection/src/main/kotlin/com/axior/guardian/core/detection/SlidingWindowEventConfirmationEngine.kt:62-67 | Popping from the front drops exactly the leading entries older than the cutoff. |
| `Confirmation.Engine.ResetAll` | core/detection/src/main/kotlin/com/axior/guardian/core/detection/SlidingWindowEventConfirmationEngine.kt:69-72 | Reset forgets every deque and cooldown. |
| `ConfirmationTheory.EngineRefinesHistory` | core/detection/src/main/kotlin/com/axior/guardian/core/detection/SlidingWindowEventConfirmationEngine.kt:25-67 | With a clock that does not go back, each type's deque, cooldown and emitted events are exactly those recomputed from the whole detection history. |
| `ConfirmationTheory.TypesAreIndependent` | core/detection/src/main/kotlin/com/axior/guardian/core/detection/SlidingWindowEventConfirmationEngine.kt:30-45 | A type's deque, cooldown and events depend only on that type's detections and on resets. |
| `ConfirmationTheory.DropOldIsFilter` | core/detection/src/main/kotlin/com/axior/guardian/core/detection/SlidingWindowEventConfirmationEngine.kt:62-67 | On an ordered deque, popping old entries off the front is filtering by the later cutoff. |
| `ConfirmationTheory.EvidenceIsSound` | core/detection/src/main/kotlin/com/axior/guardian/core/detection/SlidingWindowEventConfirmationEngine.kt:31-41 | Each confirmation rests on at least the required number of recorded, qualifying detections inside the window ending at it. |
| `ConfirmationTheory.EventSummarisesEvidence` | core/detection/src/main/kotlin/com/axior/guardian/core/detection/SlidingWindowEventConfirmationEngine.kt:50-60 | First-seen is the earliest time of the evidence; confidence is its maximum, with the box of the first detection that attains it. |
| `ConfirmationTheory.EvidenceIsDisjoint` | core/detection/src/main/kotlin/com/axior/guardian/core/detection/SlidingWindowEventConfirmationEngine.kt:41-43 | Two confirmations of one type never share a detection. |
| `ConfirmationTheory.ConfirmationsAreSpaced` | core/detection/src/main/kotlin/com/axior/guardian/core/detection/SlidingWindowEventConfirmationEngine.kt:38-42 | Confirmations of one type without a reset between them are at least the cooldown apart. |
| `ConfirmationTheory.EventRate` | core/detection/src/main/kotlin/com/axior/guardian/core/detection/SlidingWindowEventConfirmationEngine.kt:30-45 | Events of a type times its required hits never exceed its qualifying detections. |
| `ConfirmationTheory.StrongestIsFirstMaximum` | core/detection/src/main/kotlin/com/axior/guardian/core/detection/SlidingWindowEventConfirmationEngine.kt:51 | The strongest hit is the first of greatest confidence. |
| `ConfirmationOutcomes.ConfirmedIff` | core/detection/src/main/kotlin/com/axior/guardian/core/detection/SlidingWindowEventConfirmationEngine.kt:25-48 | A detection confirms its type iff it has the policy's confidence, the cooldown of the latest confirmation is over, and enough such detections lie in the window. |
| `ConfirmationOutcomes.AccruedOutcome` | core/detection/src/main/kotlin/com/axior/guardian/core/detection/SlidingWindowEventConfirmationEngine.kt:30-43 | The detections that count are exactly those of the type and confidence since it was last confirmed or reset. |
| `ConfirmationOutcomes.EventsOutcome` | core/detection/src/main/kotlin/com/axior/guardian/core/detection/SlidingWindowEventConfirmationEngine.kt:25-48 | The events the engine has emitted grow by one with each confirming detection and by nothing else. |
| `ConfirmationOutcomes.NoEvidenceOutcome` | core/detection/src/main/kotlin/com/axior/guardian/core/detection/SlidingWindowEventConfirmationEngine.kt:50-60 | With a negative window a confirmation rests on nothing: its event has confidence zero, no box, and its own time as first seen. |
| `CommandService.Store.CreateCommand` | cloud-connector/internal/storage/storage.go:302-327 | Inserts a pending command unless the device already has the key, in which case that command is returned. |
| `CommandService.Store.FetchPendingCommands` | cloud-connector/internal/storage/storage.go:341-369 | Claims the oldest unexpired pending commands nobody else has locked, up to the limit, and marks exactly those delivered. |
| `CommandService.Store.Transition` | cloud-connector/internal/storage/storage.go:374-404 | Moves a command only from a source state the state machine allows; otherwise reports not-found or invalid and changes nothing. |
| `CommandService.Store.Expire` | cloud-connector/internal/storage/storage.go:408-416 | Fails every overdue command and returns how many. |
| `CommandService.Service.CreateCommand` | cloud-connector/internal/commands/commands.go:67-113 | Refuses before writing anything; otherwise, with working storage, replays the original iff the device already has the key, and only then creates nothing; an edge command stays pending; a push command goes through its sender. |
| `CommandService.Service.Dispatch` | cloud-connector/internal/commands/commands.go:118-137 | One send, then one move whose counters tell failures known as errors from states. |
| `CommandService.Service.PollCommands` | cloud-connector/internal/commands/commands.go:140-149 | A poll is the claim plus one delivered count per command. |
| `CommandService.Service.ReportResult` | cloud-connector/internal/commands/commands.go:152-168 | A result moves the command iff the state machine allows it from its present state. |
| `CommandService.Service.ReapOnce` | cloud-connector/internal/commands/commands.go:184-195 | One reaper tick fails the overdue commands and counts each twice: as a transition and as a failure. |
| `CommandService.Api.PostCommandResult` | cloud-connector/internal/ingest/ingest.go:233-250 | The result endpoint: 400 for a body that does not decode, 404, 409, 500 or 200 for what the move returned, and the state it leaves. |
| `CommandOutcomes.ClaimsAreExact` | cloud-connector/internal/storage/storage.go:341-369 | A poll claims exactly the oldest waiting commands: all of them if they are no more than the limit, otherwise as many as the limit (1 to 50, or 10). |
| `CommandOutcomes.StepOutcome` | cloud-connector/internal/storage/storage.go:302-416 | Any step of any actor makes of a command what its own fields and the step say, whatever else is in the table, or nothing if its statement is lost. |
| `CommandOutcomes.CreateOutcome` | cloud-connector/internal/storage/storage.go:302-327 | A creation whose non-empty key the device already has changes nothing; any other adds one pending row with these fields and one count, and queues a pushed command. |
| `CommandOutcomes.ReportOutcome` | cloud-connector/internal/commands/commands.go:152-168 | What a good and a bad result do to a command in each state, and to the counters. |
| `CommandOutcomes.DispatchOutcome` | cloud-connector/internal/commands/commands.go:118-137 | A dispatched pending command becomes DELIVERED if the sender says so, FAILED if it says so or errs, and stays otherwise; with the counters. |
| `Commands.SourcesAreTransitions` | cloud-connector/internal/storage/storage.go:375-385 | The source-state lists in the statement are exactly the state machine. |
| `Commands.StepEvolves` | cloud-connector/internal/domain/domain.go:218-227 | Any step leaves a command alone or moves it along the state machine, setting the delivery or completion time and no identity field. |
| `Commands.ReapIsExact` | cloud-connector/internal/storage/storage.go:408-416 | Reaping fails exactly the unfinished commands whose time is up and leaves none of them. |
| `CommandsTheory.LifecycleIsSafe` | cloud-connector/internal/storage/storage.go:302-416 | Under any interleaving and any lost statement: completion time set iff terminal, created <= delivered <= completed, each command returned by at most one poll and before its expiry, sent at most once, alone with its device and key. |
| `CommandsTheory.PollHandsOut` | cloud-connector/internal/commands/commands.go:140-149 | Only a poll hands out commands: distinct, pending until then, of the polling device, not expired, now delivered. |
| `CommandsTheory.CommandsWalkTheMachine` | cloud-connector/internal/domain/domain.go:213-227 | Every command of every run walks a prefix of PENDING, DELIVERED, then ACKNOWLEDGED or FAILED, or goes from PENDING to FAILED. |
| `CommandsTheory.DeliveredAtTellsThePath` | cloud-connector/internal/storage/storage.go:389-394 | The delivery time is set iff the command ever was DELIVERED. |
| `CommandsTheory.TerminalIsFinal` | cloud-connector/internal/storage/storage.go:388-395 | A terminal command never changes again in any field. |
| `CommandsTheory.RepeatedResultIsRefused` | cloud-connector/internal/ingest/ingest.go:233-250 | After a result was recorded, any further result for that command, however much later, is answered 409 and changes nothing. |
| `CommandsTheory.RetriesFindTheOriginal` | cloud-connector/migrations/0001_init.sql:69-70 | After any further run, creating with an existing (device, key) changes nothing and finds that one command. |
| `CommandsTheory.RetryReturnsTheOriginalId` | cloud-connector/internal/commands/commands.go:64-66 | After any further run, whatever command is found under the same device and key has the id, type, payload and expiry of the first creation. |
| `CommandsTheory.CountersConserve` | cloud-connector/internal/commands/commands.go:100-195 | In runs without storage errors, whatever the senders answer: created = pending + delivered + acknowledged + failed; the delivered, acknowledged and failed counters equal the commands that ever entered those states; and the failure counter lacks exactly the failures a sender reported as a state instead of an error. |
| `CommandsTheory.FailuresAreCountedIff` | cloud-connector/internal/commands/commands.go:118-137 | In such runs the failure counter equals the number of failed commands iff no sender failed a command that way. |
| `CommandsTheory.SilentFailuresEscapeTheCounter` | cloud-connector/internal/commands/commands.go:131-136 | A concrete run of the other kind: a sender returns FAILED without an error, and a failed command is not counted as a failure. |
| `Poller.Poller.DoCycle` | cloud-connector/internal/provider/poller.go:66-100 | One cycle through the adapter's requests: devices, the question asked (watermark less overlap), events, and the next watermark, kept on any fetch error. |
| `Poller.Poller.RefreshDevices` | cloud-connector/internal/provider/poller.go:71-81 | One authenticated request; the devices found are upserted if it succeeds. |
| `Poller.Poller.RefreshEvents` | cloud-connector/internal/provider/poller.go:83-100 | One authenticated request; the events found are accepted and the watermark moved iff it succeeds and every alert is well formed. |
| `Poller.PolledIsRun` | cloud-connector/internal/provider/poller.go:66-100 | Polling through the adapter is a run of cycles in which exactly the requests that succeed are answered: the theorems about runs hold of it. |
| `Poller.CycleIsBounded` | cloud-connector/internal/provider/poller.go:66-100 | One cycle makes at most ten API tries, sixty token requests and two invalidations. |
| `Poller.PollingIsBounded` | cloud-connector/internal/provider/poller.go:44-63 | n cycles make at most n times as many, whatever the provider, the token endpoint and other users of the token manager do. |
| `EventOutcomes.ListingOutcome` | cloud-connector/internal/provider/poller.go:71-81 | After a listing the registered devices are those from before and every listed one whose statement committed; others are untouched. |
| `EventOutcomes.LastListingShows` | cloud-connector/internal/provider/poller.go:71-81 | What the last listing of a device says of it holds afterwards. |
| `EventOutcomes.QueryOutcome` | cloud-connector/internal/provider/poller.go:44-85 | The question is the last whole second not after the watermark less the overlap; a missing overlap is a minute. |
| `EventOutcomes.AcceptingInventsNothing` | cloud-connector/internal/provider/poller.go:93-97 | A row that a cycle adds is one of the events fetched, unchanged but for its device id. |
| `Poller.Poller.RunTicks` | cloud-connector/internal/provider/poller.go:44-63 | The loop over cycles from one interval back, with the default overlap of one minute. |
| `Poller.FirstSuccessOffers` | cloud-connector/internal/provider/poller.go:44-100 | No gap: an event confirmed after the first window opens and visible within the overlap is handed over by the first successful fetch after it is visible, however many fetches failed before. |
| `Poller.FirstSuccessStores` | cloud-connector/internal/provider/poller.go:93-99 | If the database does not fail during that fetch, the event is stored by it and stays stored exactly once through all overlapping windows. |
| `Poller.WatermarkIsLastSuccess` | cloud-connector/internal/provider/poller.go:66-100 | The watermark is the start of the last successful cycle, or the starting point. |
| `Poller.WatermarkMovesIff` | cloud-connector/internal/provider/poller.go:85-92 | The watermark moves iff the fetch was answered and every listed alert was well formed. |
| `Poller.MalformedAlertBlocks` | cloud-connector/internal/provider/poller.go:86-92 | A malformed alert that stays listed blocks its provider for good: the watermark never moves and nothing is stored. |
| `Poller.FailedInsertIsRetriedIff` | cloud-connector/internal/provider/poller.go:93-99 | A failed insert does not hold the watermark. An alert listed in a successful cycle whose event is not in storage after it is stored later (by the next successful cycle, if the database works then) iff it was confirmed after the failing cycle's start less the overlap. |
| `Poller.LostForGood` | cloud-connector/internal/provider/poller.go:85-99 | Otherwise it is lost: no later cycle of any run stores it. |
| `Poller.StoredByNextSuccess` | cloud-connector/internal/provider/poller.go:85-99 | And within the overlap the next successful fetch with a working database stores it. |
| `Poller.FailedInsertCanLose` | cloud-connector/internal/provider/poller.go:93-99 | A concrete run: with the default overlap one failed insert loses a valid alert although nothing fails afterwards. |
| `Alerts.FetchEvents` | cloud-connector/internal/provider/alphasense/alphasense.go:158-180 | Returns the alerts that normalise and the first error beside them. |
| `Alerts.SendCommand` | cloud-connector/internal/provider/alphasense/alphasense.go:185-208 | An inexpressible command fails without a request; otherwise DELIVERED iff the request succeeded. |
| `Alerts.NormalizedIsExact` | cloud-connector/internal/provider/alphasense/alphasense.go:169-179 | The returned events are exactly the normalisations of the listed alerts. |
| `Alerts.ProblemIffMalformed` | cloud-connector/internal/provider/alphasense/alphasense.go:172-178 | An error is returned iff some listed alert does not normalise. |
| `Alerts.NormalizedIsValidIff` | cloud-connector/internal/provider/alphasense/alphasense.go:98-132 | A normalised alert is a valid event of its device iff its confirmation is not the zero time, which the adapter does not check. |
| `EventOutcomes.NormalizeOutcome` | cloud-connector/internal/provider/alphasense/alphasense.go:98-132 | Every field of a normalised alert (fire iff its category is "fire"), and which defect is reported of any other. |
| `EventOutcomes.NormalizedAppends` | cloud-connector/internal/provider/alphasense/alphasense.go:169-179 | A list is normalised alert by alert: order and multiplicity are kept, and the first problem is reported. |
| `EventOutcomes.FetchOutcome` | cloud-connector/internal/provider/alphasense/alphasense.go:158-180 | What a fetch returns for a failed request, and for one with good and bad alerts. |
| `AlphaSense.Client.Do` | cloud-connector/internal/provider/alphasense/alphasense.go:226-272 | The retry closure with its refreshed flag equals the specified request. |
| `AlphaSense.RequestIsBounded` | cloud-connector/internal/provider/alphasense/alphasense.go:226-272 | Whatever other users of the shared token manager do between and during its tries, one request makes at most five tries, sees at most two 401s, invalidates the token exactly when it saw one, asks for at most thirty tokens; every try but the last was worth retrying; success iff the last answer was 2xx and decodable; permanent failure iff the last was a second 401 or not worth retrying. |
| `AlphaSense.RequestObeysLoop` | cloud-connector/internal/provider/alphasense/alphasense.go:226-272 | The request is an instance of the retry loop: its tries and outcome satisfy the contract proved of the loop with five attempts. |
| `AlphaSense.ThirtyTokensCanBeAsked` | cloud-connector/internal/oauth/oauth.go:103-123 | Thirty is attained: a concrete token endpoint makes one request ask thirty times. |
| `TokenOutcomes.BrokenOffByCaller` | cloud-connector/internal/reliability/retry.go:48-74 | A request is broken off only when its caller is seen to have gone. |
| `TokenOutcomes.FreshTokenSuffices` | cloud-connector/internal/provider/alphasense/alphasense.go:226-272 | With a fresh token a request that is answered 2xx at once is one try and asks for no token. |
| `OAuth.Manager.GetAccessToken` | cloud-connector/internal/oauth/oauth.go:76-90 | The cached token if valid beyond the skew, else the outcome of obtaining one. |
| `OAuth.Manager.Grant` | cloud-connector/internal/oauth/oauth.go:136-185 | The bounded retry around one token request. |
| `OAuth.Manager.ObtainLocked` | cloud-connector/internal/oauth/oauth.go:103-123 | Refresh first when there is a refresh token; client credentials after a permanent rejection. |
| `OAuth.AccessIsBounded` | cloud-connector/internal/oauth/oauth.go:76-123 | One call asks at most three times per grant type, refreshes first; a token is handed out unasked iff it is good beyond the skew; client credentials follow a refresh only if it was permanently rejected. |
| `OAuth.GrantIsBounded` | cloud-connector/internal/oauth/oauth.go:136-185 | One grant asks at most three times, always the same way; a token it returns is the one granted and expires when the reply says. |
| `OAuth.GrantObeysLoop` | cloud-connector/internal/oauth/oauth.go:136-185 | A grant is an instance of the retry loop: its requests and outcome satisfy the contract proved of the loop with three attempts. |
| `TokenOutcomes.GrantOutcome` | cloud-connector/internal/oauth/oauth.go:136-185 | One grant by the replies met: it asks again exactly after 5xx answers and lost connections while attempts and the caller's patience last; its token, or its failure, is what the last reply says. |
| `OAuth.RejectedRefreshFallsBack` | cloud-connector/internal/oauth/oauth.go:104-117 | After a permanently rejected refresh the next request is for client credentials. |
| `TokenOutcomes.AccessOutcome` | cloud-connector/internal/oauth/oauth.go:76-123 | One call: the cached token, unasked, iff it has more than thirty seconds left; otherwise the token of the last reply, which is then cached with its lifetime, or the reason there is none. |
| `TokenOutcomes.FirstGoodReplyIsUsed` | cloud-connector/internal/oauth/oauth.go:76-123 | If the first reply is good it is the only one asked for, by refreshing iff there is a refresh token. |
| `TokenOutcomes.InvalidationForcesGrant` | cloud-connector/internal/oauth/oauth.go:95-101 | Invalidating forgets the refresh token too, so the next call asks with client credentials. |
| `OAuth.RunsAreSpaced` | cloud-connector/internal/oauth/oauth.go:41-43 | In any serialised run, consecutive grants without an invalidation between them are at least the first token's lifetime less the skew apart. |
| `OAuth.GrantsAreRare` | cloud-connector/internal/oauth/oauth.go:76-90 | Any number of callers in an interval cause at most 1 + interval / (lifetime - skew) grants. |
| `Retry.Do` | cloud-connector/internal/reliability/retry.go:48-82 | Every attempt but the last was transient and within the limit; the outcome says how the last one ended, that the context did, or that the draw of a delay panicked; between two attempts one delay is drawn from that attempt's ceiling. |
| `Retry.DelaysAreUpToCeiling` | cloud-connector/internal/reliability/retry.go:81 | The delays that can be drawn are exactly those from 0 to the ceiling, both included. |
| `Retry.DrawIsDefinedIff` | cloud-connector/internal/reliability/retry.go:76-82 | For any policy and attempt the draw panics iff the maximum is negative or the ceiling is the greatest 64-bit integer; otherwise the ceiling lies in [0, max]. |
| `Retry.DrawCanPanic` | cloud-connector/internal/reliability/retry.go:81 | A concrete policy, base 1 and unbounded maximum, panics after its 64th attempt. |
| `Retry.PoliciesInUseCanDraw` | cloud-connector/internal/reliability/retry.go:41-43 | Both policies in use can always draw. |
| `Retry.CeilingIsExact` | cloud-connector/internal/reliability/retry.go:76-82 | If base * max fits in 63 bits the ceiling is min(base * 2^attempt, max) for every attempt, wrapped and vanished shifts included. |
| `Retry.CeilingIsExactIff` | cloud-connector/internal/reliability/retry.go:76-82 | For every 64-bit base and maximum the ceiling is min(base * 2^attempt, max) iff, with a positive maximum, the base is positive and the shift did not wrap onto a positive value below the maximum; with any other maximum, iff base * 2^attempt is not below it. |
| `Retry.CeilingCanWrap` | cloud-connector/internal/reliability/retry.go:77-80 | A concrete policy whose shift wraps onto a wrong ceiling. |
| `Retry.PoliciesInUseAreExact` | cloud-connector/internal/reliability/retry.go:41-43 | Both policies in use are exact at every attempt. |
| `Retry.ReporterCeilingIsExactIff` | core/cloud/src/main/kotlin/com/axior/guardian/core/cloud/QueueingCloudReporter.kt:100-104 | For every 64-bit base and maximum the phone's ceiling is min(base * 2^(attempt-1), max) at every attempt iff, with a maximum of zero or more, the base is zero, or positive, below 2^43 and raised to the maximum by the last exponent; with a negative maximum, iff the base is not negative and no exponent leaves it, truncated, below the maximum. |
| `Retry.ReporterDrawIsDefinedIff` | core/cloud/src/main/kotlin/com/axior/guardian/core/cloud/QueueingCloudReporter.kt:100-104 | For every 64-bit base and maximum the phone's draw is defined at every attempt iff 0 <= base < 2^43 and max >= 0. |
| `Retry.CommentIsMetIff` | core/cloud/src/main/kotlin/com/axior/guardian/core/cloud/QueueingCloudReporter.kt:100-104 | The ceiling of an attempt is min(base * 2^attempt, max), as the comment beside the code says, iff the base is zero or both the code's shift and the comment's product reach the maximum; for 0 <= base < 2^43 iff it is zero or base * 2^min(attempt-1, 20) reaches the maximum. |
| `Retry.ReporterDefaults` | core/cloud/src/main/kotlin/com/axior/guardian/core/cloud/QueueingCloudReporter.kt:100-104 | With the defaults the ceiling is min(500 * 2^(attempt-1), 30000) ms at every attempt, and the comment's from the seventh attempt on only. |
| `Webhook.Handler.BetaGridDelivery` | cloud-connector/internal/webhook/webhook.go:60-148 | The ordered gates and their answers, and the whole new state. |
| `Webhook.Handler.RecordDelivery` | cloud-connector/internal/storage/storage.go:270-281 | The idempotency gate: the first insert wins, a repeat is a duplicate. |
| `Webhook.GatesProtectState` | cloud-connector/internal/webhook/webhook.go:71-116 | Nothing but a dead letter is written, and no 200 given, unless the body is readable, small enough, authentic, well formed and in the time window. |
| `WebhookOutcomes.GatesOutcome` | cloud-connector/internal/webhook/webhook.go:60-120 | The gates in order with their status codes, and what each refusal leaves behind. |
| `WebhookOutcomes.HazardOutcome` | cloud-connector/internal/webhook/webhook.go:108-131 | A hazard that passes is stored as described, under the id of its device, unless its id is known or a statement fails; answered 200 iff none fails. |
| `WebhookOutcomes.HeartbeatOutcome` | cloud-connector/internal/webhook/webhook.go:132-146 | The device after a heartbeat that passes, for every behaviour of the database; answered 200 iff both statements work. |
| `Webhook.ParsedIsValid` | cloud-connector/internal/provider/betagrid/betagrid.go:123-177 | Whatever parsing accepts is a valid event once its device has an id, keyed by the delivery id. |
| `Webhook.HeartbeatSetsStatus` | cloud-connector/internal/webhook/webhook.go:132-146 | For every behaviour of the database after the gate: a heartbeat whose touch commits leaves the status it reports, erasing a known one when its state is outside the vocabulary; one whose touch does not leaves what the upsert alone leaves, which keeps a known status; it is answered 200 iff both statements worked. |
| `Webhook.InvalidEventIsUnreachable` | cloud-connector/internal/webhook/webhook.go:121-127 | The handler's rejected-event branch cannot be reached. |
| `Webhook.RedeliveryStoresIff` | cloud-connector/internal/webhook/webhook.go:108-131 | Over any mix of requests an id's event ends up stored iff it already was or the first request of that id whose gate committed went on to an insert that committed, whether or not its answer arrived; and then exactly once. |
| `Webhook.CleanRedelivery` | cloud-connector/internal/webhook/webhook.go:108-148 | When storage never fails, any number of deliveries stores the event once and answers 200 every time. |
| `Webhook.StorageFailureLosesEvent` | cloud-connector/internal/webhook/webhook.go:108-131 | A storage failure after the gate loses the event: the provider is told 500, its redeliveries 200, and it is never stored. |
| `Nms.Suppress` | core/detection/src/main/kotlin/com/axior/guardian/core/detection/Nms.kt:28-51 | The flag-array loops compute the greedy specification, cap included. |
| `NmsTheory.SortIsSorted` | core/detection/src/main/kotlin/com/axior/guardian/core/detection/Nms.kt:34 | Sorting is a descending permutation. |
| `NmsTheory.SortIsStable` | core/detection/src/main/kotlin/com/axior/guardian/core/detection/Nms.kt:34 | Equal scores keep their order. |
| `NmsTheory.KeptIsSound` | core/detection/src/main/kotlin/com/axior/guardian/core/detection/Nms.kt:38-50 | Survivors are detections, score-descending, and none suppresses another. |
| `NmsTheory.DroppedIsDominated` | core/detection/src/main/kotlin/com/axior/guardian/core/detection/Nms.kt:43-48 | When the cap is not reached, each dropped box has a kept same-class box with at least its score and IoU above the threshold. |
| `NmsTheory.CapTruncates` | core/detection/src/main/kotlin/com/axior/guardian/core/detection/Nms.kt:42 | A cap m >= 1 gives the first m of the uncapped result; a cap below 1 still keeps one box. |
| `NmsTheory.SuppressIsIdempotent` | core/detection/src/main/kotlin/com/axior/guardian/core/detection/Nms.kt:28-51 | Suppressing the survivors again changes nothing. |
| `NmsTheory.IouIsSymmetric` | core/detection/src/main/kotlin/com/axior/guardian/core/detection/Nms.kt:11-21 | IoU is symmetric. |
| `NmsTheory.IouInUnit` | core/detection/src/main/kotlin/com/axior/guardian/core/detection/Nms.kt:11-21 | IoU lies in [0, 1]. |
| `NmsTheory.IouIsOneIffEqual` | core/detection/src/main/kotlin/com/axior/guardian/core/detection/Nms.kt:11-21 | For boxes of positive area IoU is 1 iff they coincide. |
| `DetectionOutcomes.IouOutcome` | core/detection/src/main/kotlin/com/axior/guardian/core/detection/Nms.kt:11-21 | IoU is the shared area over the area of the union. |
| `DetectionOutcomes.PairOutcome` | core/detection/src/main/kotlin/com/axior/guardian/core/detection/Nms.kt:28-51 | Of two boxes the weaker goes iff they are of one class and overlap by more than the threshold. |
| `Letterbox.UnletterboxInvertsPlace` | core/detection/src/main/kotlin/com/axior/guardian/core/detection/LetterboxTransform.kt:27-31 | Un-letterboxing inverts letterboxing on the unit square. |
| `Letterbox.PlaceInvertsUnletterbox` | core/detection/src/main/kotlin/com/axior/guardian/core/detection/LetterboxTransform.kt:27-31 | And the other way round inside the content rectangle. |
| `Letterbox.ComputedLetterboxFits` | core/detection/src/main/kotlin/com/axior/guardian/core/detection/LetterboxTransform.kt:47-60 | The content fits the input and is centred in it, and the scales that fit are exactly the computed one and those below. |
| `Letterbox.MappedBoxIsNormalised` | core/detection/src/main/kotlin/com/axior/guardian/core/detection/LetterboxTransform.kt:34-43 | Every mapped box is ordered and inside [0, 1]. |
| `DetectionOutcomes.EdgeOutcome` | core/detection/src/main/kotlin/com/axior/guardian/core/detection/LetterboxTransform.kt:27-31 | Where an edge maps to: proportionally inside the content, onto the border outside it. |
| `DetectionOutcomes.MappedBoxOutcome` | core/detection/src/main/kotlin/com/axior/guardian/core/detection/LetterboxTransform.kt:34-43 | A box with ordered edges is mapped edge by edge. |
| `Letterbox.IouIsPreserved` | core/detection/src/main/kotlin/com/axior/guardian/core/detection/LetterboxTransform.kt:34-43 | For covered boxes mapping leaves IoU unchanged. |
| `Letterbox.IouIsPreservedIff` | core/detection/src/main/kotlin/com/axior/guardian/core/detection/LetterboxTransform.kt:34-43 | For every box, those of negative size included, mapping leaves its IoU with every covered box unchanged iff it is covered itself or, with its edges in order, does not show at all. |
| `Letterbox.SuppressionCommutes` | core/detection/src/main/kotlin/com/axior/guardian/core/detection/YoloV8PostProcessor.kt:22-37 | For covered boxes mapping then suppressing equals suppressing then mapping, for every threshold and cap. |
| `Letterbox.SuppressionCommutesIff` | core/detection/src/main/kotlin/com/axior/guardian/core/detection/YoloV8PostProcessor.kt:22-37 | Between any box and covered ones the two orders agree for all scores, classes, thresholds and caps iff the box is covered itself or, with its edges in order, does not show at all. |
| `Letterbox.ClippingCanSuppress` | core/detection/src/main/kotlin/com/axior/guardian/core/detection/LetterboxTransform.kt:30 | A concrete pair on which they differ: the IoU passes the threshold only after clipping. |
| `Decoder.Decode` | core/detection/src/main/kotlin/com/axior/guardian/core/detection/YoloV8Decoder.kt:26-85 | Size checks, then exactly the decoded anchors in anchor order; all indexing in bounds. |
| `Decoder.ArgMax` | core/detection/src/main/kotlin/com/axior/guardian/core/detection/YoloV8Decoder.kt:51-60 | The first class of greatest positive score. |
| `Decoder.TransposeToChannelsFirst` | detector/firesmoke/src/main/kotlin/com/axior/guardian/detector/firesmoke/TfLiteFireSmokeModel.kt:201-210 | Transposing puts each anchor's row into a column. |
| `PostProcessor.Process` | core/detection/src/main/kotlin/com/axior/guardian/core/detection/YoloV8PostProcessor.kt:15-39 | Decode, suppress, map, and skip classes without a detector type. |
| `PostProcessor.ProcessOutput` | detector/firesmoke/src/main/kotlin/com/axior/guardian/detector/firesmoke/TfLiteFireSmokeModel.kt:58-78 | Either orientation of the same anchors gives the same detections. |
| `PostProcessor.BestIsFirstArgMax` | core/detection/src/main/kotlin/com/axior/guardian/core/detection/YoloV8Decoder.kt:51-60 | The chosen class is the first arg max if any score is positive, none otherwise. |
| `PostProcessor.DecodeAnchorExactly` | core/detection/src/main/kotlin/com/axior/guardian/core/detection/YoloV8Decoder.kt:50-83 | An anchor decodes to class k iff k is its first arg max, positive and at least k's threshold. |
| `PostProcessor.DecodedBoxGeometry` | core/detection/src/main/kotlin/com/axior/guardian/core/detection/YoloV8Decoder.kt:66-81 | The box is centred and sized as the anchor says, scaled iff coordinates are normalised. |
| `DetectionOutcomes.DecodedIsExact` | core/detection/src/main/kotlin/com/axior/guardian/core/detection/YoloV8Decoder.kt:50-83 | The decoded boxes are exactly those of the anchors that decode. |
| `DetectionOutcomes.DecodedAppends` | core/detection/src/main/kotlin/com/axior/guardian/core/detection/YoloV8Decoder.kt:50-83 | Decoding goes anchor by anchor: order and multiplicity are kept. |
| `DetectionOutcomes.AnchorOutcome` | core/detection/src/main/kotlin/com/axior/guardian/core/detection/YoloV8Decoder.kt:44-60 | Where the values of an anchor lie in a tensor of either orientation. |
| `DetectionOutcomes.PromotedAppends` | core/detection/src/main/kotlin/com/axior/guardian/core/detection/YoloV8PostProcessor.kt:27-37 | Survivors are reported one by one, in order. |
| `DetectionOutcomes.PromotedIsExact` | core/detection/src/main/kotlin/com/axior/guardian/core/detection/YoloV8PostProcessor.kt:27-37 | A detection is reported iff some survivor of a mapped class has that type, score and mapped box. |
| `DetectionOutcomes.DetectionsAreTraceable` | core/detection/src/main/kotlin/com/axior/guardian/core/detection/YoloV8PostProcessor.kt:15-39 | Every reported detection is some anchor's: the type of its best class, that class's score, at or above its threshold, and its own box mapped back. |
| `DetectionOutcomes.HazardsAreReported` | core/detection/src/main/kotlin/com/axior/guardian/core/detection/YoloV8PostProcessor.kt:15-39 | While the cap is not reached, the type an anchor shows is reported with at least that anchor's confidence. |
| `DetectionOutcomes.OrientOutcome` | detector/firesmoke/src/main/kotlin/com/axior/guardian/detector/firesmoke/TfLiteFireSmokeModel.kt:165-185 | Which dimension of a model's output carries the channels, and which shapes are refused. |
| `PostProcessor.PostProcessIsPresentable` | core/detection/src/main/kotlin/com/axior/guardian/core/detection/YoloV8PostProcessor.kt:15-39 | Every reported detection is confident for its type, ordered inside [0, 1], in descending order. |
| `Json.Quote` | core/cloud/src/main/kotlin/com/axior/guardian/core/cloud/CloudContract.kt:69-84 | The appending loop writes the specified escaped string. |
| `Json.QuoteRoundTrip` | core/cloud/src/main/kotlin/com/axior/guardian/core/cloud/CloudContract.kt:69-84 | A scanner of RFC 8259 section 7 applied to a quoted string and any following text consumes exactly the string and returns the original. |
| `Json.QuoteIsInjective` | core/cloud/src/main/kotlin/com/axior/guardian/core/cloud/CloudContract.kt:69-84 | Different strings are never written alike, whatever follows. |
| `Json.ObjectRoundTrip` | core/cloud/src/main/kotlin/com/axior/guardian/core/cloud/CloudContract.kt:53-67 | A reader of RFC 8259, strict about the grammar of strings and numbers, returns the fields of a written object in order for every string, Boolean, integer and finite float; a non-finite float reads as 0. |
| `Json.IntIsNumber` | core/cloud/src/main/kotlin/com/axior/guardian/core/cloud/CloudContract.kt:61 | Every integer is written in the number grammar of section 6, without leading zeros. |
| `Json.ObjectIsInjective` | core/cloud/src/main/kotlin/com/axior/guardian/core/cloud/CloudContract.kt:53-67 | Field values cannot change the structure of the object. |
| `Json.EventJsonIsInjective` | core/cloud/src/main/kotlin/com/axior/guardian/core/cloud/CloudContract.kt:20-29 | Two event bodies are the same text only for the same event, device and version. |
| `Json.EventBodyOutcome` | core/cloud/src/main/kotlin/com/axior/guardian/core/cloud/CloudContract.kt:20-29 | What a reader finds in an event body: the seven fields under their names, in order, with the event's own values. |
| `Nv21.ToNv21` | core/camera/src/main/kotlin/com/axior/guardian/core/camera/ImageProxyConverters.kt:13-60 | The packing loops over strided planes fill the buffer with luma rows and V/U pairs and leave zeros behind. |
| `Nv21.PackLumaRow` | core/camera/src/main/kotlin/com/axior/guardian/core/camera/ImageProxyConverters.kt:31-43 | One luma row, sample by sample at its strides. |
| `Nv21.PackChroma` | core/camera/src/main/kotlin/com/axior/guardian/core/camera/ImageProxyConverters.kt:45-57 | The interleaved V/U rows. |
| `Nv21.PackedReadsBack` | core/camera/src/main/kotlin/com/axior/guardian/core/camera/ImageProxyConverters.kt:26-59 | For even dimensions packing fills the buffer exactly and a reader finds each pixel's luma and chroma samples of the original planes. |
| `Nv21.ReadsInBoundsIffEven` | core/detection/src/main/kotlin/com/axior/guardian/core/detection/FramePreprocessor.kt:104-110 | All chroma reads stay inside the buffer iff both dimensions are even. |
| `Preprocessor.UprightIsBijective` | core/detection/src/main/kotlin/com/axior/guardian/core/detection/FramePreprocessor.kt:92-101 | For every rotation upright and source pixels correspond one to one and the clamps never act. |
| `Preprocessor.QuarterTurnsCompose` | core/detection/src/main/kotlin/com/axior/guardian/core/detection/FramePreprocessor.kt:92-97 | The turn is clockwise, 180 degrees are two quarter turns and 270 three. |
| `Preprocessor.NormalizedRotationIsModulo` | core/detection/src/main/kotlin/com/axior/guardian/core/detection/FramePreprocessor.kt:35 | The two-step remainder is the rotation modulo 360, negative angles included. |
| `Preprocessor.UprightIsExact` | core/detection/src/main/kotlin/com/axior/guardian/core/detection/FramePreprocessor.kt:54-58 | Inside the picture the sampled upright pixel is the one the cell falls in; the clamp is inert. |
| `Preprocessor.PixelShowsPlanes` | core/detection/src/main/kotlin/com/axior/guardian/core/detection/FramePreprocessor.kt:104-110 | Each pixel is converted from its own samples in the camera's planes. |
| `Preprocessor.Process` | core/detection/src/main/kotlin/com/axior/guardian/core/detection/FramePreprocessor.kt:32-82 | A buffer of the right size is reused, any other replaced; the result is the laid-out colours of all cells followed by what the buffer held behind them; it throws iff some read leaves the frame's buffer or the model has fewer than three channels. |
| `Preprocessor.EvenFramesComplete` | core/detection/src/main/kotlin/com/axior/guardian/core/detection/FramePreprocessor.kt:32-110 | A full frame with even dimensions never throws, given three channels or more. |
| `Preprocessor.PictureOutcome` | core/detection/src/main/kotlin/com/axior/guardian/core/detection/FramePreprocessor.kt:53-62 | Beside the picture a cell is grey 114; on it, it shows the source pixel that its upright pixel is turned onto. |
| `Preprocessor.InsideIsBetweenPads` | core/detection/src/main/kotlin/com/axior/guardian/core/detection/FramePreprocessor.kt:54-55 | The cells the picture covers are those between the pads. |
| `Preprocessor.TransformOutcome` | core/detection/src/main/kotlin/com/axior/guardian/core/detection/FramePreprocessor.kt:35-47 | The picture is letterboxed as it stands upright, into the model's input of width times height cells. |
| `Preprocessor.PixelOutcome` | core/detection/src/main/kotlin/com/axior/guardian/core/detection/FramePreprocessor.kt:104-116 | A pixel is converted from its own luma and the chroma of its block, V before U, or throws past the buffer. |
| `Preprocessor.TensorOutcome` | core/detection/src/main/kotlin/com/axior/guardian/core/detection/FramePreprocessor.kt:68-82 | Which value of which cell lies at which place of the tensor, for both layouts and both colour orders. |
| `Preprocessor.SlotsPartition` | core/detection/src/main/kotlin/com/axior/guardian/core/detection/FramePreprocessor.kt:72-81 | In both layouts every place of the tensor belongs to exactly one channel of one pixel. |
| `Preprocessor.BgrExchangesChannels` | core/detection/src/main/kotlin/com/axior/guardian/core/detection/FramePreprocessor.kt:68-82 | The tensors of a BGR and an RGB model for the same frame and buffer differ exactly by exchanging the first and last channel of every pixel, in both layouts. |
| `Preprocessor.NormKeepsOrder` | core/detection/src/main/kotlin/com/axior/guardian/core/detection/FramePreprocessor.kt:85-89 | Normalisation is v / 255, v / 127.5 - 1 or v, so strictly increasing, and takes 0 and 255 to the ends of its interval. |
| `Preprocessor.ReuseLeavesNoTraceIff` | core/detection/src/main/kotlin/com/axior/guardian/core/detection/FramePreprocessor.kt:48-49 | The result is independent of what a reused buffer held iff the model has exactly three channels. |
| `Preprocessor.LayoutsAreTransposes` | core/detection/src/main/kotlin/com/axior/guardian/core/detection/FramePreprocessor.kt:72-81 | The channels-first tensor is the transpose of the channels-last one. |

## Left out

- Floating point: scores, boxes and scales are real numbers, so rounding and NaN are not modelled; a float in JSON comes with the text the runtime gives it.
- Integer width: times, counters and sizes are unbounded; only the backoff shift wraps at 64 bits. Saturation of time differences beyond 292 years is therefore absent from the webhook's skew test.
- Cryptography (HMAC, AES-GCM, bearer tokens, constant-time comparison): a delivery is authentic or not.
- HTTP, gRPC, the camera, the interpreter and the UI: their results are parameters.
- PostgreSQL itself: statements are atomic steps on maps and sequences with the schema's unique keys; row locks are the set of rows a poll skips. The class `CommandService.Store` picks the oldest row in a loop where the source has one statement.
- Telemetry rows, dead-letter contents and the creation and update times of devices: stored and never read by the modelled logic.
- The unit normalisation of sensor readings, the endpoint that lists pending commands, and the truncation of stored times to microseconds.
- Identifiers minted at random, the event id of a confirmed hazard included: assumed fresh or left to the caller.
- Metrics other than the command counters, logging and tracing. A counter changes together with its statement, so a crash between the two is not modelled.
- Cancellation inside a request: a context is looked at where the retry loops look at it.
- Outbox.Reporter.DeliverItem: the delay between posts is absent, and with it the exception its draw throws for a base outside [0, 2^43) or a negative maximum, which `Retry.ReporterDrawIsDefinedIff` describes.
- Outbox.Reporter.ReportItem: channel capacities below one behave as one; unlimited and rendezvous channels are not modelled.
- Outbox.Reporter.Drain: stops after a given number of items instead of being cancelled, and closing only stops reports.
- Poller.Poller.RunTicks: polls a given list of ticks instead of waiting on a ticker.
- Json.ObjectRoundTrip: the reader covers flat objects, which is all the writer writes; strings are UTF-16 code units and their UTF-8 encoding is not modelled.
- Nv21.PackLumaRow: the bulk copy for adjacent pixels and the pixel loop are one loop; they read the same samples.
- Preprocessor.Process: a frame or an input without pixels is not modelled (its scale divides by zero), what a reused buffer holds after an exception is not stated, and the YUV-to-RGB coefficients are a parameter.
- Fanout.Hub.PublishAll: channels are visited in order of subscription where the source visits a map; closed channels stay in the list without being offered anything.
- Delivery.ExactlyOnceStorage: the text a phone posts is decoded by a parameter; that the writer's text determines the event is proved separately in `Json`.
- The telemetry payload: it is written by the same writer from other fields.
- Enum translations for gRPC and configuration parsing (finite tables), the provider simulator (a stand-in for the providers), the viewport mapper and the metrics aggregator (arithmetic for display), and the detection engine's wiring.
