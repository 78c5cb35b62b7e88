# Device platform backend: verified model

A Dafny model of the parts of a device management backend that keep state between calls, with proofs
about all their runs. Each part is a state machine over its atomic steps (one uninterrupted turn of the
runtime, one database access, one locked transaction), so that everything the original separates by an
`await` can interleave. Beside each machine that the original writes as an object stands a class whose
methods work on its fields step by step; every such method is proved equal to one step of its machine.

| file | component |
|---|---|
| `Sequences`, `Segments`, `Topics` | a fact about sequences; splitting and joining text; building and parsing message topics |
| `Base64Url`, `PlatformToken`, `TokenAcceptance` | base64url; issuing and verifying signed tokens, the device's replay window, the class `FirmwareModel`; which tokens the device accepts |
| `DomainEvents`, `EventPattern` | the event envelope; subscription patterns |
| `EventBus`, `EventBusRetries`, `EventBusAccounting`, `EventBusTiming`, `EventBusHandlers`, `InProcessEventBus` | the in-process event bus: order, retries, books, time bounds, the handler calls behind it, and the class `Bus` |
| `Presence`, `PresenceRefinement`, `PresenceOrder`, `PresenceOverlap`, `DevicesService` | the device registry running on that bus, exactly when it is right, the runs in which it is not, and the class `Devices` |
| `LoginThrottle`, `LoginThrottleObject`, `ConcurrentLogins`, `EvictedLogins` | the login throttle, its classes, overlapping logins, and what evicting an account costs |
| `CommandWire`, `Commands`, `CommandsService` | request and response over the broker with the class `MqttService`; the life of a command over crashes; the class `Service` |
| `Accounts`, `AccountTokens`, `AccountCache`, `IdentityService` | accounts and their writers, token revocation, the state cache, and the class `Service` |
| `EventLog`, `EventLogService` | idempotent recording and paging by cursor, and the class `Service` |

`dafny verify dfyconfig.toml` checks the whole project.

## What the proofs rest on

- **Runtime.** Code between two awaits is atomic. The clock never goes back. One backend instance runs at
  a time, as the in-memory maps of the original require.
- **Bus.** Timers may fire any time after they are due. Only the theorems of `EventBusTiming` and
  `CommandWire.SettlesInTime` assume that time does not pass a due timer (`Prompt`). `retries` is at least 0.
- **Registry.** The presence subscription is the first one, with the default options (no retry). Only the
  registry publishes lifecycle events. Any database access of the handler may reject. A handler whose attempt
  times out runs on beside the next events, so bodies of one device can overlap. The code says that a fast flap
  cannot be applied backwards (devices.service.ts:83-84); it can, and a device can be announced online twice in a
  row: `FlapIsAppliedBackwards` and `OverlapBreaksAlternation` give the runs. When the registry is right is
  proved exactly, step by step, for all runs: `AlternatesExactly` for its events and `RowExactly` for its row
  (together `RegistryIsRightExactly`). Runs in which no report of a device starts while an earlier body of that
  device still runs meet both (`NoOverlapIsEnough`) and refine a sequential replay (`RefinesReplay`); runs in which
  no attempt of the handler times out are of that kind (`InTimeIsEnough`).
- **Commands.** New command ids are fresh. The sweep of a boot is over before that process dispatches: the
  framework awaits it before it initialises the modules that dispatch. Any write may be rejected, or land with its
  reply lost; a process may die between any two steps.
- **Tokens.** HMAC, JSON and the code of the random nonce are parameters. HMAC yields 32 bytes; parsing what was
  stringified gives the payload back (`Library.Lawful`).
- **Accounts.** `register` and `updateUser` are serialised by the advisory lock; `createUser` and password
  changes are not. A `save` writes the entity that was loaded earlier, so it can undo what was saved in between.
  The code says that the set of active admins can never become empty (identity.service.ts:187-191) and that
  disabling and password changes revoke every token. Neither holds of every run: `OverlapLosesLastAdmin`,
  `RevokedTokenReturns`, `OverlapKeepsToken` and `OverlapLeavesTokenAhead` give the runs. When they do hold is
  proved exactly, save by save, for all runs: `AdminThroughoutExactly`, `SaveRaisesExactly`, `BehindExactly`,
  `RisingExactly` and `NoneAheadExactly`. Atomic password changes meet the admin condition
  (`AtomicMeansStanding`), and saves that lose no update meet all of them (`UndisturbedIsSafe`). Deleting the
  cache entry does not stop a lookup that has already read the account (`LookupOutlivesDeletion`);
  `DeletionIsEffective` says exactly when the deletion is enough.
- **Throttle.** Maps are bounded, so an account can be evicted; `EvictionMisreports` gives a run in which the
  lockout reported is then not the one reached, and `ReportIsCrossingExactly` says when it is.
- **Event log.** Numbers come from a database sequence, so they are distinct, but a number drawn early can be
  committed late. `CollectedExactly` says what that means for paging, and `LateRowIsReturned` gives such a run.

## Model

| member | source | states |
|---|---|---|
| EventBus.LanesHoldOpenLane | apps/backend/src/platform/events/in-process-event-bus.ts:60-78 | in every reachable state, while a link of a lane is open the map of tails holds the lane's last link, though links delete themselves and keys come back |
| EventBus.LaneIsFifo | apps/backend/src/platform/events/in-process-event-bus.ts:66-78 | no target of a later event of a lane is attempted before every target of each earlier one is delivered or given up, in every interleaving |
| EventBus.DoneStaysDone | apps/backend/src/platform/events/in-process-event-bus.ts:116-148 | no step of the bus ever changes a settled (event, target) pair again |
| EventBusHandlers.RefinesBus | apps/backend/src/platform/events/in-process-event-bus.ts:116-148 | every run of handler calls, which may end at any time after their attempt, is seen from the bus a run of the bus |
| EventBusHandlers.TimedOutNeverCounts | apps/backend/src/platform/events/in-process-event-bus.ts:137-148 | the end of a call whose attempt timed out, at any later time and beside any retry, changes no counter, no progress and nothing else of the bus |
| EventBusHandlers.PairSettlesOnce | apps/backend/src/platform/events/in-process-event-bus.ts:116-135 | each (event, target) pair is settled exactly once, by whichever of its calls and timers comes first |
| EventBusHandlers.CountsWhatSettles | apps/backend/src/platform/events/in-process-event-bus.ts:116-135 | a step counts one delivery or failure if it settles a pair, and none otherwise |
| EventBusHandlers.LaneRunsOneEvent | apps/backend/src/platform/events/in-process-event-bus.ts:66-78 | two running handler calls of one lane serve the same event unless one has outlived its attempt |
| EventBusHandlers.NoTimeoutAllCount | apps/backend/src/platform/events/in-process-event-bus.ts:137-148 | as long as no attempt times out, no handler call outlives its attempt |
| EventBus.DrainedIsSettled | apps/backend/src/platform/events/in-process-event-bus.ts:98-102 | when nothing is in flight, everything published so far is settled and no lane is left |
| EventBus.StepKeepsInv | apps/backend/src/platform/events/in-process-event-bus.ts:60-148 | every step keeps chaining, order, the map of tails and the in-flight set consistent |
| EventBusRetries.AttemptsExactly | apps/backend/src/platform/events/in-process-event-bus.ts:116-135 | in every run: a pair is given up only after exactly retries + 1 attempts, all failed or timed out; it is delivered by one attempt that succeeded after at most retries failed ones; and while it waits for attempt n + 1, exactly n + 1 have failed |
| EventBusRetries.FailedAttempt | apps/backend/src/platform/events/in-process-event-bus.ts:120-133 | a failed or timed-out attempt n is put off for backoffMs · 2^n from the failure, or, as the last one, given up and only then counted as failed |
| EventBusRetries.WaitsForRetry | apps/backend/src/platform/events/in-process-event-bus.ts:133-133 | until the back-off is over the pair stays put off, whatever else happens |
| EventBusRetries.NextAttempt | apps/backend/src/platform/events/in-process-event-bus.ts:117-119 | the back-off is over exactly when it is due; then attempt n + 1 begins, its timer armed timeoutMs later |
| EventBusRetries.FirstAttempt | apps/backend/src/platform/events/in-process-event-bus.ts:112-119 | a link that starts calls every target for the first time, each with a timer armed timeoutMs later |
| EventBusRetries.TimeoutsAreCounted | apps/backend/src/platform/events/in-process-event-bus.ts:137-143 | in every run the bus counts exactly the attempts that timed out |
| EventBusRetries.DevicesDoNotWait | apps/backend/src/platform/events/in-process-event-bus.ts:66-71 | in every run a link waits only for an earlier link of its own device (or of no device, if it has none), so it may start once those have settled, whatever other devices do |
| EventBusRetries.DeviceIsFifo | apps/backend/src/platform/events/in-process-event-bus.ts:66-78 | no event of a device starts before every earlier one of that device has settled |
| EventBusRetries.TargetsExactly | apps/backend/src/platform/events/in-process-event-bus.ts:60-65 | a subscription anywhere among others receives an event, at the same place among the targets, exactly if its pattern accepts it |
| EventBusRetries.PublishedExactly | apps/backend/src/platform/events/in-process-event-bus.ts:60-78 | a publication is counted and becomes one link with the matching subscriptions, none if there are none |
| EventBusRetries.SubscribedExactly | apps/backend/src/platform/events/in-process-event-bus.ts:80-89 | a new subscription comes last, with the options given |
| EventBusRetries.UnsubscribedExactly | apps/backend/src/platform/events/in-process-event-bus.ts:90-95 | ending a subscription takes exactly it out of the list and leaves what was published before |
| EventBusAccounting.Conservation | apps/backend/src/platform/events/in-process-event-bus.ts:60-65 | delivered + failed + still open is the sum over published events of the subscriptions matching at publish time; the counters count exactly the delivered and the given-up pairs |
| EventBusAccounting.DrainedBooks | apps/backend/src/platform/events/in-process-event-bus.ts:98-102 | on an idle bus delivered + failed accounts for every expected delivery |
| EventBusAccounting.AttemptBound | apps/backend/src/platform/events/in-process-event-bus.ts:116-135 | a pair is attempted at most retries + 1 times, and never once it is settled |
| EventBusAccounting.InternalStepUsesWork | apps/backend/src/platform/events/in-process-event-bus.ts:98-148 | every step the bus takes by itself strictly lowers the work left |
| EventBusAccounting.WorkBoundsRun | apps/backend/src/platform/events/in-process-event-bus.ts:98-102 | the internal steps of a run and the work left after it are at most the work before it plus what its publications bring in |
| EventBusAccounting.DrainIsInevitable | apps/backend/src/platform/events/in-process-event-bus.ts:98-102 | a run that has taken all those steps has nothing in flight any more |
| EventBusAccounting.DrainIsReached | apps/backend/src/platform/events/in-process-event-bus.ts:98-102 | from every state, once publications stop, the bus's own steps and time reach a state with nothing in flight, so drain returns |
| EventBusAccounting.NeverStuck | apps/backend/src/platform/events/in-process-event-bus.ts:98-148 | while anything is in flight the bus can take a step, at the latest when a timer is due |
| EventBusTiming.BudgetFormula | apps/backend/src/platform/events/in-process-event-bus.ts:116-135 | attempts and doubling back-offs sum up to (retries+1)·timeout + backoff·(2^retries − 1) |
| EventBusTiming.TargetSettlesInTime | apps/backend/src/platform/events/in-process-event-bus.ts:116-148 | with prompt timers no target is unfinished longer than that budget |
| EventBusTiming.LaneSettlesInTime | apps/backend/src/platform/events/in-process-event-bus.ts:66-78 | counted from any moment, a link settles within the sum over the open links of its lane up to it of their slowest targets |
| EventPattern.AcceptsMeaning | apps/backend/src/platform/events/in-process-event-bus.ts:28-43 | what the pattern matcher accepts: segment by segment up to the first `**`, which ends the match, else of equal length |
| EventPattern.MatchesPattern | apps/backend/src/platform/events/in-process-event-bus.ts:28-43 | the index loop decides exactly the recursive definition |
| InProcessEventBus.Bus.SelectTargets | apps/backend/src/platform/events/in-process-event-bus.ts:60-65 | the loop selects the matching subscriptions in order |
| InProcessEventBus.Bus.Publish | apps/backend/src/platform/events/in-process-event-bus.ts:60-78 | is the publish step: counts, selects targets, chains a link behind the lane's tail, becomes the tail, joins the in-flight set |
| InProcessEventBus.Bus.Unsubscribe | apps/backend/src/platform/events/in-process-event-bus.ts:80-96 | removes this subscription only; events already published keep their targets |
| InProcessEventBus.Bus.HandlerRejected | apps/backend/src/platform/events/in-process-event-bus.ts:116-135 | is the failure step: gives up and counts at the last attempt, otherwise waits out a doubled back-off |
| InProcessEventBus.Bus.TimerFired | apps/backend/src/platform/events/in-process-event-bus.ts:137-148 | is the timeout step: counts the timeout, then fails the attempt; the handler call runs on |
| InProcessEventBus.Bus.HandlerEnded | apps/backend/src/platform/events/in-process-event-bus.ts:137-148 | an ending call settles its own attempt if that is still open, and is swallowed otherwise |
| InProcessEventBus.Bus.StartDelivery | apps/backend/src/platform/events/in-process-event-bus.ts:112-118 | is the start step: every target's first attempt begins, with one handler call each |
| InProcessEventBus.Bus.Finally | apps/backend/src/platform/events/in-process-event-bus.ts:72-77 | is the clean-up step: leaves the in-flight set, and deletes the lane only if still its tail |
| InProcessEventBus.Bus.DrainMayReturn | apps/backend/src/platform/events/in-process-event-bus.ts:98-102 | drain's loop is over exactly when nothing is in flight |
| Presence.ReplayMeaning | apps/backend/src/devices/devices.service.ts:62-109 | the sequential replay of one device's reports: last handled report in the row, registered once and first, then online and offline alternating, one per real change |
| PresenceRefinement.RefinesReplay | apps/backend/src/devices/devices.service.ts:86-109 | in every interleaving on the bus in which no report starts beside an earlier body of its device, time-outs included, an idle device's row and lifecycle events are those of that replay in publish order |
| PresenceRefinement.RegistryIsRight | apps/backend/src/devices/devices.service.ts:62-109 | the replay's meaning carried over to every such concurrent run |
| PresenceRefinement.SettledIsLogged | apps/backend/src/devices/devices.service.ts:29-33 | in those runs a settled report is in the replayed log or its body still runs past a time-out; what was delivered was handled or ignored, and what failed was given up |
| PresenceRefinement.InTimeIsEnough | apps/backend/src/devices/devices.service.ts:29-33 | as long as no handler attempt times out bodies never overlap, so the above holds; then delivered means exactly handled or ignored, and given up exactly failed |
| PresenceOrder.AlternatesExactly | apps/backend/src/devices/devices.service.ts:62-109 | for all runs, time-outs and overlapping bodies included: a device is registered once and first and then alternates online and offline if and only if each row is saved where there is none and each change announced starts from the presence last announced |
| PresenceOrder.PublishedByBodies | apps/backend/src/devices/devices.service.ts:62-109 | what the registry publishes in each step, field by field: one registration with the base topic when a row is saved, one change event with the presence read before when a body ends on a change, stamped with that instant, and nothing else |
| PresenceOrder.RowsExactly | apps/backend/src/devices/devices.service.ts:68-94 | saving makes a row with the report's base topic, offline and never seen; updating puts in presence and time and keeps the base topic; nothing else touches a row |
| PresenceOrder.BodiesEnd | apps/backend/src/devices/devices.service.ts:86-109 | a handler call without a device id ends ignored, one that announced ends handled, one whose access rejects ends failed |
| PresenceOrder.BusLearnsEnd | apps/backend/src/devices/devices.service.ts:29-33 | the bus, if it still waits for a handler call that ends, delivers one ignored or handled and gives up one failed |
| PresenceOrder.RowExactly | apps/backend/src/devices/devices.service.ts:92-94 | for all runs: the row ends with the values of the latest report that has written it if and only if the last write was in order, that is, no later report with another presence or time had written before it |
| PresenceOrder.RowThroughoutExactly | apps/backend/src/devices/devices.service.ts:92-94 | for all runs: the row holds those values at every point if and only if every write is in order |
| PresenceOrder.RegistryIsRightExactly | apps/backend/src/devices/devices.service.ts:80-109 | both for a device with nothing running, the row in terms of its last handled report |
| PresenceOrder.NoOverlapIsEnough | apps/backend/src/devices/devices.service.ts:83-86 | runs without overlapping bodies, for one because no handler attempt times out, meet both conditions |
| PresenceOverlap.OverlapBreaksAlternation | apps/backend/src/devices/devices.service.ts:86-109 | the run in which a body that outlived its time-out overlaps the next report and the device is announced online twice in a row |
| PresenceOverlap.FlapIsAppliedBackwards | apps/backend/src/devices/devices.service.ts:83-94 | the run from the start in which a device that reported online and then offline ends online, with the older report's time, although its events are in order |
| Presence.OneBodyPerDevice | apps/backend/src/devices/devices.service.ts:83-86 | where no report starts beside an earlier body of its device, a device never has two running handler bodies |
| PresenceRefinement.StepKeepsInv | apps/backend/src/devices/devices.service.ts:62-109 | every step of bus and handler bodies that starts no report beside an earlier body of its device keeps each device in sync with its replay |
| DevicesService.Devices.FindOrCreate | apps/backend/src/devices/devices.service.ts:62-78 | creates and announces a device only if it has no row, under any rejected access |
| DevicesService.Devices.HandlePresenceReported | apps/backend/src/devices/devices.service.ts:86-109 | one undisturbed call has exactly the effect of one replayed report and leaves other devices alone |
| LoginThrottle.RefinesLog | apps/backend/src/identity/login-throttle.ts:61-105 | after any run the counted failures are a suffix of the real ones inside the window, all of them if the key was not size-evicted; the key bound holds |
| LoginThrottle.StepKeepsInv | apps/backend/src/identity/login-throttle.ts:49-105 | every failure, check, success and passage of time keeps the bounded map in agreement with the full list |
| LoginThrottle.LiveExactly | apps/backend/src/identity/login-throttle.ts:61-91 | a failure counts, at its place, exactly if it is less than the window's length old |
| LoginThrottle.SuccessForgets | apps/backend/src/identity/login-throttle.ts:56-58 | a success forgets the failures of its key and no others |
| LoginThrottle.RecordedIsKept | apps/backend/src/identity/login-throttle.ts:70-105 | the key just recorded is never evicted and its count is the number returned |
| LoginThrottle.RetryAfterRange | apps/backend/src/identity/login-throttle.ts:61-67 | the wait is 0 exactly when fewer than the limit count, otherwise positive and at most the window |
| LoginThrottle.RetryAfterExact | apps/backend/src/identity/login-throttle.ts:61-67 | attempts stay refused for that long; at exactly the limit they are allowed at that instant |
| LoginThrottle.RefusedLater | apps/backend/src/identity/login-throttle.ts:32-43 | a later attempt is refused exactly when that many failures are still inside the window |
| LoginThrottleObject.Throttle.AssertAllowed | apps/backend/src/identity/login-throttle.ts:32-43 | allowed exactly when neither key is over its limit; the seconds announced are the longer wait rounded up |
| LoginThrottleObject.Throttle.RecordFailure | apps/backend/src/identity/login-throttle.ts:49-54 | pushes both keys and tells which limit this very failure reached |
| LoginThrottleObject.Throttle.RecordSuccess | apps/backend/src/identity/login-throttle.ts:56-58 | forgets the account and leaves the address |
| LoginThrottleObject.Throttle.RecordIn | apps/backend/src/identity/login-throttle.ts:70-78 | the in-place push is the specified one |
| LoginThrottleObject.Throttle.Evict | apps/backend/src/identity/login-throttle.ts:94-105 | both eviction loops do what the specification says |
| ConcurrentLogins.ConcurrencyBound | apps/backend/src/identity/identity.service.ts:121-140 | with at most K attempts between check and record, a window never holds more than limit − 1 + K failures; attempts may be refused by the address or end in an exception |
| ConcurrentLogins.FlightsExactly | apps/backend/src/identity/identity.service.ts:121-140 | an attempt is in flight from being let in, by account and address, to its one end |
| ConcurrentLogins.ReportIsCrossing | apps/backend/src/identity/login-throttle.ts:45-54 | for an account never size-evicted, a lockout is reported exactly when the real count reaches the limit |
| ConcurrentLogins.ReportsAreCrossings | apps/backend/src/identity/login-throttle.ts:45-54 | over a run in which the account is never size-evicted, reports equal upward crossings |
| ConcurrentLogins.ReportIsCrossingExactly | apps/backend/src/identity/login-throttle.ts:45-54 | for every account: a failure is reported exactly if it really reaches the limit, if and only if before it the stored and the real count agree on being one below the limit |
| ConcurrentLogins.ReportIsStoredCrossing | apps/backend/src/identity/login-throttle.ts:45-54 | for every account, evicted or not: a lockout is reported exactly when the stored count inside the window goes from 4 to 5 |
| ConcurrentLogins.ReportsAreStoredCrossings | apps/backend/src/identity/login-throttle.ts:45-54 | in every run, for every account, reports equal upward crossings of the stored count |
| EvictedLogins.EvictionMisreports | apps/backend/src/identity/login-throttle.ts:70-105 | a run in which an account is evicted: the failure that really crosses the limit is not reported, and the next one is reported although it crosses nothing |
| ConcurrentLogins.SerialLockout | apps/backend/src/identity/identity.service.ts:121-140 | serial attempts: reported exactly when locked out, refused for exactly retry-after in milliseconds, and allowed again by the account once the whole seconds announced (rounded up) have passed |
| ConcurrentLogins.AnnouncedExactly | apps/backend/src/identity/login-throttle.ts:36-42 | the announced seconds are the wait rounded up, and no more |
| CommandWire.PendingAreArmed | apps/backend/src/mqtt/mqtt.service.ts:144-186 | in every run the pending keys are exactly the ids of the armed timers, one each |
| CommandWire.SendEffect | apps/backend/src/mqtt/mqtt.service.ts:144-186 | in every state: after sending, the call waits with its id pending and its timer running if and only if connected, the id free, the topic fine and the message taken; otherwise it has ended with the first obstacle in the code's order; nothing else changes |
| CommandWire.CommandIsAnswered | apps/backend/src/mqtt/mqtt.service.ts:171-248 | a command that went out is settled by the first response with its id, whatever happens before that is no shutdown, own timer or own response |
| CommandWire.TimerIsDue | apps/backend/src/mqtt/mqtt.service.ts:171-175 | the timer of a waiting call may fire from timeoutMs after it was sent, and not before |
| CommandWire.TimeoutEffect | apps/backend/src/mqtt/mqtt.service.ts:171-175 | when it fires, exactly its call ends, as timed out, and its id is free again |
| CommandWire.ConnectedExactly | apps/backend/src/mqtt/mqtt.service.ts:94-104 | in every run, commands can be sent exactly while the last change was a connection |
| CommandWire.SettledStays | apps/backend/src/mqtt/mqtt.service.ts:171-186 | a promise settles at most once |
| CommandWire.ResponseEffect | apps/backend/src/mqtt/mqtt.service.ts:232-248 | a response settles the one call waiting for its id; to nobody waiting it changes nothing |
| CommandWire.AnswerIsFirstOwn | apps/backend/src/mqtt/mqtt.service.ts:171-186 | an answered call got the first response with its own id since it was made |
| CommandWire.SettlesInTime | apps/backend/src/mqtt/mqtt.service.ts:171-186 | without shutdown, and with prompt timers, every promise settles by its timeout |
| CommandWire.AbandonedStaysOpen | apps/backend/src/mqtt/mqtt.service.ts:94-98 | a promise whose entry the shutdown cleared is never settled |
| CommandWire.MqttService.SendCommand | apps/backend/src/mqtt/mqtt.service.ts:144-186 | is the send step, with its four ways to fail |
| CommandWire.MqttService.HandleResponse | apps/backend/src/mqtt/mqtt.service.ts:232-248 | is the arrival step |
| CommandWire.MqttService.OnModuleDestroy | apps/backend/src/mqtt/mqtt.service.ts:94-98 | the loop clears every timer; the map is emptied and nothing is settled |
| Commands.Lifecycle | apps/backend/src/commands/commands.service.ts:81-181 | in every run with crashes and lost replies: created and completed at most once, in that order, with the row's correlation id; completed needs the result row and repeats its ok and the row's status; a result needs a terminal status, succeeded exactly when ok |
| Commands.StatusSettlesOnce | apps/backend/src/commands/commands.service.ts:144-152 | rows never vanish; a status changes only from pending to terminal, once; results never change |
| Commands.ResultIsExplained | apps/backend/src/commands/commands.service.ts:118-138 | a stored result is a response with the command's own id or a gateway error; only a response makes a command succeed |
| Commands.RowsAreRequests | apps/backend/src/commands/commands.service.ts:90-128 | in every run a stored command has the correlation id and timeout of the request dispatched with its id, and the gateway was asked to send it with that timeout |
| Commands.SendHandsOver | apps/backend/src/commands/commands.service.ts:108-128 | dispatching announces the command and makes one gateway call with its own id and timeout, which the dispatch then waits for |
| Commands.OutcomeIsSaved | apps/backend/src/commands/commands.service.ts:118-152 | when the promise has settled, the status saved is that of the answering response or of the gateway's error, and nothing else in the tables changes |
| Commands.StatusIsOfResult | apps/backend/src/commands/commands.service.ts:194-207 | in every run: succeeded exactly if the stored result is ok, rejected exactly if it is a denial, timed out exactly if it mentions a timeout and no denial, failed otherwise |
| Commands.DispatchCompletes | apps/backend/src/commands/commands.service.ts:81-181 | a dispatch with nothing in its way, from the request to the completed event: row, status, result and both events as the response says |
| Commands.InsertMakesPending | apps/backend/src/commands/commands.service.ts:95-106 | the new row is pending with the request's correlation id and timeout; the dispatch goes on exactly if the reply arrived |
| Commands.RejectedWriteEnds | apps/backend/src/commands/commands.service.ts:144-156 | a rejected write ends the dispatch and changes no table |
| Commands.BootStartsFresh | apps/backend/src/commands/commands.service.ts:67-79 | a new process has an empty gateway; a successful sweep closes exactly the pending rows |
| Commands.CrashKeepsTables | apps/backend/src/commands/commands.service.ts:59-66 | a process that dies leaves tables and events behind, and nothing else |
| Commands.SweepClosesForGood | apps/backend/src/commands/commands.service.ts:67-79 | after a boot with a successful sweep no row of an earlier process is ever pending again, and no finished row was touched |
| Commands.StrandedUntilBoot | apps/backend/src/commands/commands.service.ts:118-138 | a stranded command stays pending until the next boot |
| Commands.ShutdownStrandsExactly | apps/backend/src/commands/commands.service.ts:118-138 | of the dispatches of a process, the shutdown strands exactly those that wait for a promise not settled yet |
| Commands.ShutdownLeavesPending | apps/backend/src/commands/commands.service.ts:118-138 | in every run, a command still waiting for its answer at the shutdown is pending from then on until the next boot |
| Commands.CleanRunCompletes | apps/backend/src/commands/commands.service.ts:81-181 | where nothing is lost, a command whose dispatch is over has its terminal status, its result row and both events |
| Commands.EndedStaysEnded | apps/backend/src/commands/commands.service.ts:144-181 | once a dispatch is over, however it ended, nothing more is stored or published for it |
| Commands.StepKeepsInv | apps/backend/src/commands/commands.service.ts:67-181 | every step keeps rows, results, events, running dispatches and the gateway consistent |
| CommandsService.Service.OnModuleInit | apps/backend/src/commands/commands.service.ts:67-79 | is the boot step; a failed sweep changes nothing |
| CommandsService.Service.Stop | apps/backend/src/commands/commands.service.ts:59-66 | is the crash step: the running dispatches are gone, the tables stay |
| CommandsService.Service.Dispatch | apps/backend/src/commands/commands.service.ts:81-106 | refuses an unknown device with nothing written, otherwise inserts the pending row |
| CommandsService.Service.RowSaved | apps/backend/src/commands/commands.service.ts:107-128 | announces the command, then hands it to the gateway |
| CommandsService.Service.PromiseSettled | apps/backend/src/commands/commands.service.ts:129-152 | turns response or error into the saved status |
| CommandsService.Service.ClassifyResponse | apps/backend/src/commands/commands.service.ts:194-207 | ok first, then denial, then timeout; always terminal |
| Accounts.AdminRemains | apps/backend/src/identity/identity.service.ts:192-231 | once there is an active admin there always is one, in every interleaving whose password saves write back the role and state the account still has; hash and token version may be lost |
| Accounts.AtomicMeansStanding | apps/backend/src/identity/identity.service.ts:246-268 | every run in which password changes load and save at once is such a run |
| Accounts.AdminThroughoutExactly | apps/backend/src/identity/identity.service.ts:187-231 | lost updates included: an active admin throughout if and only if every save writes an active admin or leaves another |
| Accounts.OverlapLosesLastAdmin | apps/backend/src/identity/identity.service.ts:246-268 | the run in which a password change, loaded before a promotion and saved after it, removes the last active admin |
| Accounts.DecideSparesLastAdmin | apps/backend/src/identity/identity.service.ts:203-226 | an update that passes the check leaves another active admin; disabling raises the token version |
| Accounts.DecideExactly | apps/backend/src/identity/identity.service.ts:199-226 | a request to change role or state is refused exactly for an unknown account and for taking the last enabled admin away, saves nothing exactly if every requested field is there already, and otherwise saves exactly the requested fields, raising the version exactly on disabling |
| Accounts.RegistrationMakesAdmin | apps/backend/src/identity/identity.service.ts:103-111 | in every run: on an empty table registration makes an enabled admin, alone in the first version ever written; later it changes nothing |
| Accounts.CreationMakesAccount | apps/backend/src/identity/identity.service.ts:172-178 | a new account has the role and hash given, is enabled, starts at version 0, and no other account changes |
| Accounts.RestartForgets | apps/backend/src/identity/identity.service.ts:75-75 | a new process keeps the table and the tokens, and has no lock, no cache and nothing half done |
| Accounts.AbortReleasesLock | apps/backend/src/identity/identity.service.ts:199-231 | an update given up leaves the table alone and lets the next one in |
| Accounts.LookupFills | apps/backend/src/identity/identity.service.ts:155-164 | a lookup begins only without a live entry, and fills in what it read, live from that instant |
| Accounts.AtMostOneRegistration | apps/backend/src/identity/identity.service.ts:99-119 | however many registrations race, at most one creates an account |
| AccountTokens.TokensNeverAhead | apps/backend/src/identity/identity.service.ts:288-294 | where every save upholds its row's token version, every issued token has a version at most its account's |
| AccountTokens.NoneAheadExactly | apps/backend/src/identity/identity.service.ts:288-294 | for all runs, lost updates included: no token is ever ahead of its account if and only if no save writes below an issued token and none is issued from an entity past its row |
| AccountTokens.RisingExactly | apps/backend/src/identity/identity.service.ts:192-275 | for all runs: no token version ever falls if and only if every save writes at least the version that is there |
| AccountTokens.SaveRaisesExactly | apps/backend/src/identity/identity.service.ts:264-268 | after any run: a password change raises the version if and only if the row is not past the loaded entity; disabling likewise for the entity the transaction read |
| AccountTokens.BehindExactly | apps/backend/src/identity/identity.service.ts:220-226 | for all runs: a token behind its account stays behind throughout if and only if every save on the account writes above it |
| AccountTokens.RevocationExactly | apps/backend/src/identity/identity.service.ts:220-226 | a save that raises the version revokes every token reached so far, and for the rest of the run exactly if every later save writes above it |
| AccountTokens.RevocationIsForever | apps/backend/src/identity/identity.service.ts:220-226 | where every save upholds, a save that raises the version puts tokens from earlier reads, issued before or after, behind for good |
| AccountTokens.UpdateTakesEffect | apps/backend/src/identity/identity.service.ts:199-228 | an update that is neither refused nor void leaves exactly the requested role and state, the old hash, and a version raised exactly on disabling; no other account changes |
| AccountTokens.DisablingRevokes | apps/backend/src/identity/identity.service.ts:220-226 | disabling puts every token at or below the version the account had behind it |
| AccountTokens.RefusedUpdateChangesNothing | apps/backend/src/identity/identity.service.ts:203-228 | a request that is refused or asks for what is there changes nothing |
| AccountTokens.PasswordTakesEffect | apps/backend/src/identity/identity.service.ts:264-268 | a password change sets the hash and raises the version, and changes nothing else |
| AccountTokens.TokensAreOfEnabled | apps/backend/src/identity/identity.service.ts:127-146 | in every run a token carries the version of the row it was issued from, and that account was enabled then |
| AccountTokens.SignInGetsCurrent | apps/backend/src/identity/identity.service.ts:288-294 | a sign-in gets a token for the account as it is at that moment |
| AccountTokens.OverlapKeepsToken | apps/backend/src/identity/identity.service.ts:264-268 | two overlapped password changes leave the token of the first one valid |
| AccountTokens.RunKeepsTokenInv | apps/backend/src/identity/identity.service.ts:192-275 | where every save upholds its row's version, no account vanishes and no token version falls |
| AccountTokens.UpdateUndoesPassword | apps/backend/src/identity/identity.service.ts:199-228 | a whole password change between the read and the save of an update of the same account is undone by that save |
| AccountTokens.RevokedTokenReturns | apps/backend/src/identity/identity.service.ts:199-228 | that run from the empty table: the revoked token is its account's again, with the old hash |
| AccountTokens.OverlapLeavesTokenAhead | apps/backend/src/identity/identity.service.ts:255-268 | an older password save after two newer changes leaves the newest token ahead of its account |
| AccountCache.ServedWasTrue | apps/backend/src/identity/identity.service.ts:155-164 | whatever the cache serves (the row of an enabled account, or nobody) was the committed state less than the TTL plus the filling read's duration ago, in every run |
| AccountCache.RevokedWithin | apps/backend/src/identity/permissions.guard.ts:47-53 | once a token is behind its account and as long as every save on it writes above the token, it is refused when the TTL plus the filling read's duration has passed since the version current then was committed |
| AccountCache.CurrentIsAccepted | apps/backend/src/identity/permissions.guard.ts:47-53 | a token at its active account's version is accepted after one lookup, however it came to be there |
| AccountCache.DeletionIsEffective | apps/backend/src/identity/identity.service.ts:155-164 | deleting the entry of an account means that a token behind it is never accepted again in that process, as long as every save on the account writes above the token, if and only if no open lookup has read the account as active with the token's version |
| AccountCache.LookupOutlivesDeletion | apps/backend/src/identity/identity.service.ts:155-164 | the run from the empty table in which such a lookup fills the cache after the deletion, and the revoked token passes for another TTL |
| IdentityService.Service.RegisterFirst | apps/backend/src/identity/identity.service.ts:99-119 | creates an admin exactly when the table is empty |
| IdentityService.Service.CountActiveAdmins | apps/backend/src/identity/identity.service.ts:208-213 | the filter counts exactly the active admins |
| IdentityService.Service.UpdateUser | apps/backend/src/identity/identity.service.ts:192-231 | decides as specified: not found, last admin, unchanged, or the entity to save |
| IdentityService.Service.ApplyPassword | apps/backend/src/identity/identity.service.ts:264-268 | writes the loaded entity with the new hash and the next token version |
| IdentityService.Service.GetActiveUser | apps/backend/src/identity/identity.service.ts:155-160 | serves an entry younger than the TTL, otherwise starts a lookup |
| IdentityService.Service.LookupDone | apps/backend/src/identity/identity.service.ts:161-164 | fills the cache with what was read, at the present instant |
| IdentityService.Service.CanActivate | apps/backend/src/identity/permissions.guard.ts:47-53 | on a live cache entry decides at once, and lets the token through exactly if the cache accepts it (AccountCache.Accepts, which RevokedWithin bounds); otherwise starts a lookup and decides nothing |
| IdentityService.Service.CanActivateAfterLookup | apps/backend/src/identity/permissions.guard.ts:47-53 | after the lookup the freshly filled entry decides: through exactly if the cache now accepts the token |
| PlatformToken.SigningRefusals | apps/backend/src/provisioning/platform-exec.ts:112-139 | refuses exactly unlisted targets and payloads over 768 bytes; the second size guard never fires |
| PlatformToken.SignedTokenOpens | apps/backend/test/helpers/firmware-verifier.ts:37-55 | every signed token passes the device's form, size and signature checks and carries the payload unchanged |
| TokenAcceptance.AcceptedExactly | apps/backend/test/helpers/firmware-verifier.ts:31-81 | for every token, issued or forged: accepted, to run this call, if and only if it is a readable payload and its HMAC under the device's secret, and the payload names the device, a listed capability, a window of at most 60 s around a clock that is set, and an unseen nonce |
| TokenAcceptance.ForgedIsRefused | apps/backend/test/helpers/firmware-verifier.ts:42-46 | a token whose second part does not decode to the HMAC of its first part is never accepted |
| TokenAcceptance.RefusalsExactly | apps/backend/test/helpers/firmware-verifier.ts:31-77 | a refusal names the first check, in the device's order, that the token does not pass; only the document null makes the verifier throw |
| PlatformToken.Agreement | apps/backend/test/helpers/firmware-verifier.ts:31-81 | a token signed at T is accepted at D exactly if T−30 ≤ D ≤ T+35, and yields the signed capability and input |
| PlatformToken.WrongDeviceRefuses | apps/backend/test/helpers/firmware-verifier.ts:65-65 | every other device refuses it |
| PlatformToken.WindowIsRecent | apps/backend/test/helpers/firmware-verifier.ts:76-86 | the window is duplicate-free and is exactly the last min(16, k) accepted nonces since the reboot |
| PlatformToken.SeenIsRecent | apps/backend/test/helpers/firmware-verifier.ts:70-86 | the same for the device over every run of verifications and reboots with nonces of at most 47 characters |
| PlatformToken.ReplayOnlyLate | apps/backend/test/helpers/firmware-verifier.ts:76-86 | a nonce is accepted twice only across a reboot or after at least 16 acceptances |
| PlatformToken.ReplayOnlySoon | apps/backend/test/helpers/firmware-verifier.ts:70-74 | two acceptances of one token are at most 65 s apart |
| PlatformToken.ImmediateReplay | apps/backend/test/helpers/firmware-verifier.ts:76-78 | an accepted token presented again at once is refused if and only if its nonce has at most 47 characters |
| PlatformToken.FirmwareModel.Verify | apps/backend/test/helpers/firmware-verifier.ts:31-81 | the object's push and shift are the window's step |
| Base64Url.RoundTrip | apps/backend/src/provisioning/platform-exec.ts:54-63 | decoding an encoding gives the bytes back |
| Base64Url.RoundTripBack | apps/backend/src/provisioning/platform-exec.ts:54-63 | encoding a decoding gives the text back if and only if the text is canonical |
| Base64Url.EncodedShape | apps/backend/src/provisioning/platform-exec.ts:54-56 | the length is ceil(4n/3) and only alphabet characters occur (section 5 of RFC 4648) |
| Base64Url.ThreeBytesEncode | apps/backend/src/provisioning/platform-exec.ts:54-56 | three bytes become four characters of the URL-safe alphabet, each for six of the 24 bits, highest first (section 5 of RFC 4648) |
| Base64Url.LastBytesEncode | apps/backend/src/provisioning/platform-exec.ts:54-56 | one or two bytes left over become two or three characters, the missing bits being zero |
| Base64Url.EncodeInjective | apps/backend/src/provisioning/platform-exec.ts:54-56 | different byte strings have different encodings |
| Topics.ParseOfBuild | packages/esp-claw-protocol/src/topics.ts:25-67 | parsing a built topic gives back device, leaf and normalised base if and only if the base has a non-empty segment and the id has no slash |
| Topics.BuildExactly | packages/esp-claw-protocol/src/topics.ts:25-33 | a topic that is not refused is the base without its trailing slashes, the device id and the leaf |
| Topics.RefusedExactly | packages/esp-claw-protocol/src/topics.ts:26-31 | exactly a blank base, and else a blank device id, is refused |
| Topics.ParseExactly | packages/esp-claw-protocol/src/topics.ts:55-67 | a topic parses exactly by its non-empty pieces: at least three, the last two being device and leaf |
| Topics.LeavesExactly | packages/esp-claw-protocol/src/topics.ts:17-18 | the three leaves and their texts |
| Topics.BuildOfParse | packages/esp-claw-protocol/src/topics.ts:25-67 | rebuilding a parsed topic gives it back if and only if it had no empty segment |
| Topics.ParseIsStable | packages/esp-claw-protocol/src/topics.ts:55-67 | removing empty segments does not change what a topic parses to |
| Topics.TrimKeepsSegments | packages/esp-claw-protocol/src/topics.ts:82-84 | trimming trailing slashes changes no segment |
| EventLog.RecordedOnce | apps/backend/src/audit/event-log.service.ts:47-72 | however often events are delivered, rows never change and each audited event has exactly one row |
| EventLog.AuditedExactly | apps/backend/src/platform/events/event-types.ts:177-190 | six kinds of event by name and four families by prefix are recorded, and no other |
| EventLog.PageSplits | apps/backend/src/audit/event-log.service.ts:74-92 | a page is the newest matching rows before the cursor; the next cursor is its last row, is lower, and leaves exactly the rest |
| EventLog.PageAsAsked | apps/backend/src/audit/event-log.service.ts:74-92 | a page holds only rows below the cursor that have, for each filter given and not empty, this very device, type and correlation id; a row as asked that is not on it is older than all of it, and there is a next page |
| EventLog.CollectedFalls | apps/backend/src/audit/event-log.service.ts:74-92 | while the log grows, following the cursor yields strictly falling numbers, so no row twice |
| EventLog.CollectedMissesNone | apps/backend/src/audit/event-log.service.ts:74-92 | every matching row present at the first request is returned |
| EventLog.CollectedAsAsked | apps/backend/src/audit/event-log.service.ts:74-92 | all pages together hold only rows as asked, strictly falling, and every row as asked of the first request |
| EventLog.CollectedExactly | apps/backend/src/audit/event-log.service.ts:74-92 | the pages are exactly the first request's rows if and only if no matching row turned up late below a cursor |
| EventLog.LateRowIsReturned | apps/backend/src/audit/event-log.service.ts:74-92 | a growing run with a row numbered early and committed late: the pages return it, so they are not the first request's rows |
| EventLog.PagingIsExact | apps/backend/src/audit/event-log.service.ts:74-92 | exact for every limit and filter when rows are only added above those present |
| EventLog.PagingEnds | apps/backend/src/audit/event-log.service.ts:89-91 | the cursor strictly falls, so paging ends |
| EventLogService.Service.RecordIfAudited | apps/backend/src/audit/event-log.service.ts:47-72 | is the idempotent insert of audited events |
| EventLogService.Service.GetMany | apps/backend/src/audit/event-log.service.ts:74-88 | the ordered, limited query returns the newest selected rows |
| EventLogService.Service.FindPage | apps/backend/src/audit/event-log.service.ts:74-92 | computes the specified page |

## Left out

- Controllers, modules, environment checks, migrations, metrics, logging, request context: wiring with no state of its own.
- The MQTT client and broker, the database, bcrypt, JWT, HMAC, HKDF, random ids, JSON and schema parsing: abstract functions, atomic accesses and fresh ids.
- Permission tables, twin drift, telemetry sampling, capability refresh, the poller: they would only add easy members.
- The bus's own `onModuleDestroy` and its statistics endpoint: the first is one drain raced against a time limit.
- LoginThrottleObject.Throttle.AssertAllowed: one reading of the clock per public call, where the code reads it once per access; e-mail normalisation is an abstract function.
- ConcurrentLogins.ConcurrencyBound: whether the address refuses is a free input of the step, and publishing the lockout event is not modelled.
- CommandWire.SettlesInTime: assumes timeouts inside the range the platform's timer accepts (1 to 2147483647 ms); the API allows 1000 to 60000.
- Commands.Lifecycle: the name, input, device and times of a row, and the duration in the completed event, are not modelled; the texts that `classify` looks for are abstract predicates.
- Commands.SweepClosesForGood: a write reaches the database while its process lives; an insert committed only after the next boot's sweep is not modelled.
- Accounts.AtMostOneRegistration: the bootstrap token check, e-mail uniqueness and published security events are not modelled.
- Accounts.AdminRemains: the comparison with the stored row that the object mapper makes before a save is one step with the write.
- PlatformToken.Agreement: JSON numbers are integers; the device's C implementation is represented by its in-repository port only.
- PresenceRefinement.RefinesReplay: after bodies have overlapped, exact are the order of the events and the presence and time in the row (`PresenceOrder`), not the number of changes announced; a database access that rejects has not taken effect; causation and correlation ids of the lifecycle events are not modelled.
- EventLog.PagingIsExact: a row is represented by its number and the fields the filters read.
