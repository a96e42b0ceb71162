# Price Scout: verified model

Price Scout watches product pages. A Go control plane keeps monitors, compiled
plans, executions, repairs, observations and alerts in Postgres and hands work
to TypeScript workers through a transactional outbox and a JetStream queue.
This project models that protocol in Dafny and proves what holds over every
history of it. `dafny verify dfyconfig.toml` checks everything.

## The parts

- `Rows`, `Texts`, `Transactions`: the database as one value and every store transaction
  as a total function that commits or aborts. A history is any sequence of
  transactions with any arguments: any worker result, any batch a `SELECT ...
  LIMIT` may return, any clock reading.
- `Lineage`, `Outbox`, `RepairMirror`, `Plans`, `AlertEdges`: the five
  invariants, each over only the tables it speaks of, and what every statement
  does to them. `ControlPlane` and `Results` put them together and show that
  every transaction keeps the whole; `Histories` states what follows.
- `Conditions`, `ResultEffects`, `PlanEffects`, `ObservationEffects`,
  `OperationEffects`, `SweepEffects`: what every operation leaves in the tables,
  row by row and without the functions that compute it: which results are
  accepted, which failure queues which work, which price matches, what each
  verdict does, and that nothing else moves.
- `StoreObject.Store`: the store as an object whose tables are changed statement
  by statement, with rollback. Every method is exactly one step of
  `Transactions`, so everything in `Histories` holds of the object.
- `Delivery`: relay, stream, workers and store as one step system with relay
  crashes, suppressed duplicates, redeliveries and vanishing workers. `Relay`
  shows that only the relay's commit marks outbox rows, `Worker`
  is the delivery handler, whose every call is a run of that system, and
  `LostWork` settles when work can be lost.
- `AlertBook`, `AlertStoreObject.AlertStore`, `AlertEffects`, `DeliveryRunner`:
  alert delivery leases, the delivery state cached on the alert, and the runners.
- `Money`, `MoneyRoundTrip`, `PriceRefusals`: the money printer, the price parser,
  and what the parser must refuse.
- `Extraction`, `PageReadings`, `VariantIndependence`: reading an observation off a page, and
  the policy that binds variant monitors to the rendered page.

One inductive invariant carries the control plane. The code never compares two
generations; that the current plan cannot go backwards, that a
compare-and-swap cannot lose, that a duplicate guard is never taken and that a
unique constraint is never hit all come out of that invariant.

## What the proofs found

- Work can be lost. The control plane stores the `traceparent` header unbounded
  (internal/httpapi/server.go:131, 242) while the worker's message schema allows
  512 characters (worker/src/contracts.ts:104-107) and terminates what it cannot
  read. `LostWork.LostIffUnreadable`: an unfinished execution can lose its
  message if and only if its traceparent is longer than that, and
  `LostWork.CreationCanBeLost`: one request with such a header is enough.
  `LostWork.LostStaysLost`: it then stays queued through every run that does
  not name it, and its monitor is refused new checks. The design record
  (docs/adr/0002-postgres-outbox-and-jetstream.md:9) promises redelivery
  without this exception; the model follows the code.
- The bound of six delivery attempts rests on the runner settling its batch
  before it claims again. The store alone does not give it: it takes the
  attempt number from the caller. `DeliveryRunner.BoundKeptIff` and
  `BoundHoldsIff` are the exact condition, for one call and for every history
  of calls, and `DeliveryRunner.StaleAttemptReopens` is a history that fails it.
- The extractor policy keeps variant monitors off the base offer only if the
  strategies it is given do not already read it. Its input type allows that;
  `VariantIndependence.IndependentIff` is the exact condition for all plans,
  with or without a variant. The only caller (worker/src/compiler.ts:151-205)
  passes page selectors only, so with a variant the condition holds there.
- The money round trip holds exactly for positive amounts: zero is refused and
  the sign of a negative amount is not read back. A currency code glued to the
  number is no word of its own, so the amount is read without a currency.

## Model

| member | source | states |
|---|---|---|
| Histories.StepKeeps | internal/store/executions.go:48-432 | every transaction, whatever its arguments, keeps the invariant and undoes nothing: terminal executions, revisions, outbox rows, observations and alerts stay |
| Histories.Reached | internal/store/executions.go:48-432 | the invariant holds after every history from the empty database |
| Histories.KeptAlong | internal/store/executions.go:151-220 | whatever any prefix of a history established, the whole history still has |
| Histories.CurrentOnlyAdvances | internal/store/monitors.go:167-275 | along every history a monitor's current revision is never cleared and only ever moves to a strictly larger generation |
| Histories.CurrentIsNewest | internal/store/executions.go:222-265 | the current revision is the newest or second newest generation, and the newest if that one is active |
| Histories.PromotionNeverLoses | internal/store/executions.go:248-265 | in every reachable database the compare-and-swap of a successful repair wins, its generation is the newest, and its plan becomes generation g+1, active and current |
| Histories.GenerationsExact | internal/store/executions.go:222-247 | generations are exactly 1..n, unique, all below n active, and at most one revision is pending |
| Histories.GenerationsOrigin | internal/store/executions.go:222-247 | generation 1 was compiled by an execution that succeeded, generation g+1 was proposed by a repair execution of generation g that succeeded, at the end of the one attempt of g |
| Histories.ConfirmRejectsNothing | internal/store/monitors.go:176-188 | the statement that rejects all other pending revisions never changes a row |
| Histories.RevisionHasMonitor | internal/store/monitors.go:167-202 | a revision's monitor exists, so confirming a reviewable revision cannot end in not-found |
| Histories.OneInFlight | internal/store/executions.go:113-139 | at most one execution per monitor is queued or running, through every way of creating one |
| Histories.RecoveryChains | internal/store/recovery.go:98-125 | every execution ends a chain of finished executions of the same work whose length is its attempt number, at most the maximum; nobody has two replacements |
| Histories.ChainsShareNothing | internal/store/recovery.go:98-125 | any two recovery chains are disjoint, unless one is the beginning of the other |
| Histories.InferenceBudget | internal/store/executions.go:358-432 | a monitor with n revisions has at most max * (n + 1) compile and repair executions |
| Histories.RevisionCount | internal/store/executions.go:222-238 | a monitor has exactly as many revisions as its newest generation |
| Histories.TerminalIsFinal | internal/store/executions.go:157-166 | a finished execution's row never changes again |
| Histories.OneResult | internal/store/executions.go:151-220 | an execution accepts at most one result; every later one leaves the whole database unchanged |
| Histories.LateResultIgnored | internal/store/executions.go:157-166 | once an execution is finished, by a result or by a sweep, every later result leaves the whole database unchanged |
| Histories.OneObservation | internal/store/executions.go:287-295 | an execution has at most one observation, of its own monitor, and only after succeeding |
| Histories.QueuedWaits | internal/store/recovery.go:37-60 | only a claim or a result that names a queued execution changes it; no sweep expires it |
| Histories.PinnedInput | internal/store/executions.go:48-96 | kind, input, revision and generation of an execution never change; a check or repair stays pinned to one activated revision of its own monitor, and that revision keeps its plan; exactly compilations have none |
| Histories.AttemptMirrorsTip | internal/store/recovery.go:108-125 | a repair execution in flight has exactly one repair attempt, in the same state, the only one of its generation |
| Histories.AttemptsFollowTips | internal/store/recovery.go:98-142 | every repair attempt points at the last execution of its chain and is queued or running exactly when that execution is |
| Histories.BatchesNeverAbort | internal/store/recovery.go:60-91 | no scheduling or sweep batch can abort on a missing revision or a missing repair attempt |
| Histories.AlertsAreRisingEdges | internal/store/executions.go:267-324 | condition_matched is the fold of the verified check observations in commit order and the alerts are exactly its rising edges, in order |
| Histories.NonMatchBetweenAlerts | internal/store/executions.go:298-322 | between two alerts of a monitor lies a verified non-matching check observation of it |
| Histories.AlertsAreConfirmed | internal/store/executions.go:296-349 | every alert rests on two verified matches from two different checks of its monitor, an ordinary one and then its confirmation |
| ObservationEffects.ConfirmationAlerts | internal/store/executions.go:298-324 | a confirmation in flight means an open latch; a verified one that matches (the worker's word, else the condition as `Conditions.Meets` states it) sets the latch and creates exactly one alert, any other creates none |
| ObservationEffects.TriggerEnqueues | internal/store/executions.go:312-349 | an ordinary check never alerts and queues a confirmation exactly when it is the first verified match: the duplicate guard is never taken |
| Histories.OnlyChecksAlert | internal/store/executions.go:276-324 | compile and repair results never create an alert |
| Conditions.MatchIsMeets | internal/store/executions.go:434-460 | a condition is met exactly when it decodes, sets a limit, agrees in currency up to case and in stock if required, and the price is strictly below `priceBelow` if that is set, else at most `maxPrice` |
| Conditions.PriceLaws | internal/store/executions.go:434-460 | a lower price still meets a condition; a price equal to the strict limit does not, one equal to the inclusive limit does |
| ResultEffects.AcceptedIff | internal/store/executions.go:157-220 | exactly which results an execution in flight accepts: status, plan, artifacts, error, and price, currency, title and verification of the observation |
| ResultEffects.ResultEnds | internal/store/executions.go:171-185 | an accepted result ends the execution in the posted status and keeps the rest of its row |
| ResultEffects.TransientRetries | internal/store/executions.go:358-362 | a transient or rate-limited compile or repair below the bound is queued again as a child with the same work and input, announced, and takes its attempt along; nothing else moves |
| ResultEffects.CompileFails | internal/store/executions.go:363-370 | a compilation that fails for good puts its monitor under review on needs_review and otherwise stops it; nothing else moves |
| ResultEffects.RepairFails | internal/store/executions.go:371-379 | a repair that fails for good fails its attempt and puts its monitor under review, unscheduled |
| ResultEffects.StaleFailureRepairs | internal/store/executions.go:392-424 | the first stale failure of a generation leaves one queued repair of the same revision and generation, exactly one queued attempt pointing at it, its message, and the monitor under review, unscheduled |
| ResultEffects.RepairedOnce | internal/store/executions.go:397-401 | with an attempt already there, a stale failure changes nothing but the check itself |
| ResultEffects.CheckFails | internal/store/executions.go:380-391 | any other failed check: a block stops the monitor, doubt puts it under review off the schedule, everything else is left to the next run |
| PlanEffects.CompileAwaitsConfirmation | internal/store/executions.go:222-242 | a compiled plan becomes generation 1 awaiting confirmation; nothing becomes current |
| PlanEffects.RepairAwaitsReview | internal/store/executions.go:243-265 | without automatic promotion the repaired plan becomes candidate g+1, recorded at its attempt, and the monitor goes under review |
| PlanEffects.RepairIsPromoted | internal/store/executions.go:243-261 | with automatic promotion the repaired plan is active and current at once and the monitor back on schedule |
| ObservationEffects.ObservationRecorded | internal/store/executions.go:267-295 | an accepted success appends exactly one row: the posted price, stock and title, the currency in capitals, verified or not, and matched by the worker's word or else by the condition in force |
| ObservationEffects.NothingRecorded | internal/store/executions.go:196-215 | a failure, or a success without an observation, records none |
| ObservationEffects.CheckLatches | internal/store/executions.go:296-349 | what a successful check does besides its row: latch, alert, or one confirmation of the same plan with its message |
| ObservationEffects.CheaperStillMatches | internal/store/executions.go:434-460 | posting a lower price for the same check records a match whenever the higher one did |
| OperationEffects.CreateEffects | internal/store/monitors.go:21-56 | a new monitor compiles its own URL and intent at once, with no condition, plan or schedule |
| OperationEffects.EnqueueEffects | internal/store/executions.go:98-149 | exactly when a manual check is queued, and its row and message; otherwise nothing changes |
| OperationEffects.ClaimEffects | internal/store/executions.go:54-76 | a first claim starts queued work and its attempt, a later one renews the claim time, finished work is only read |
| OperationEffects.RenewalHolds | internal/store/recovery.go:37-60 | a claim protects an execution from every sweep until the timeout, at least a second, has passed, and not longer |
| OperationEffects.InputPinned | internal/store/executions.go:78-96 | a worker's input is the row's own kind and input and the plan of exactly the revision it is pinned to |
| OperationEffects.ReviewEffects | internal/store/monitors.go:240-275 | acceptance activates, installs and schedules; rejection rejects and leaves the current plan in force or the monitor stopped; the attempts behind the revision get the verdict, no other row moves |
| OperationEffects.ReviewRefused | internal/store/monitors.go:246-253 | a revision that is not pending at that monitor is a conflict |
| OperationEffects.ConfirmEffects | internal/store/monitors.go:167-202 | confirmation activates, installs and schedules the revision under the new condition, and no other row moves |
| OperationEffects.PatchEffects | internal/store/monitors.go:210-238 | edits replace what they name, a pause takes the monitor off the schedule, a resume makes it due at once |
| OperationEffects.DueMeans | internal/store/monitors.go:283-286 | due means active, with a plan, its time come, and nothing of it queued or running |
| OperationEffects.DueAfter | internal/store/monitors.go:189-238 | after a pause never due, after a resume due at once, after a confirmation due one interval later, always provided the monitor is idle and has a plan |
| OperationEffects.ScheduleEffects | internal/store/monitors.go:304-324 | every monitor of a due batch gets its own fresh check, pinned to its current revision and announced, and is next due one interval later; no other row moves |
| SweepEffects.SweepEffectsOn | internal/store/recovery.go:60-143 | every row of a stale batch fails and is replaced below the bound or given up at it, with the exact monitor and attempt rows; no other row moves |
| SweepEffects.StaleMeans | internal/store/recovery.go:37-44 | stale means running, not replaced, and claimed longer ago than the timeout, which is at least a second |
| SweepEffects.DifferentMonitors | internal/store/recovery.go:60-91 | the rows of a batch belong to different monitors, so the iterations do not interfere |
| Plans.RepairIsCurrent | internal/store/executions.go:248-262 | a repair in flight for generation g implies that g is the newest generation and its revision is current |
| Plans.UnrepairedIsNewest | internal/store/executions.go:392-417 | a generation that was never repaired is the newest one |
| Plans.NothingElsePending | internal/store/monitors.go:176-188 | a pending revision is the only pending revision of its monitor |
| RepairMirror.MoveKeepsMirror | internal/store/recovery.go:108-125 | moving the attempt to the replacement keeps attempts and chain tips in step |
| RepairMirror.OneAttemptAt | internal/store/recovery.go:108-125 | exactly one attempt points at a repair in flight, so a replacement never fails |
| Lineage.ChildKeepsLineage | internal/store/recovery.go:98-125 | a replacement extends one chain, keeps all others and respects the attempt bound without the unique constraint |
| Lineage.ChainsDisjoint | internal/store/recovery.go:98-125 | two chains that share an execution have it at the same depth and agree up to it |
| Lineage.SlotsBound | internal/store/executions.go:358-362 | the work slots of a monitor, each a chain of at most max attempts, bound its executions |
| AlertEdges.EdgesExact | internal/store/executions.go:296-324 | an observation is listed as an edge exactly when the fold rises at it |
| AlertEdges.FallsOnNonMatch | internal/store/executions.go:298-311 | the fold can only fall at a verified non-match |
| AlertEdges.ObservationKeepsAlerts | internal/store/executions.go:267-324 | one more observation keeps the fold, the edges and the quiet-confirmation law |
| Outbox.InsertKeepsOutbox | internal/store/outbox.go:18-28 | executions and outbox rows stay in one-to-one correspondence with matching subject, monitor and revision |
| Results.ResultKeeps | internal/store/executions.go:151-220 | any worker result keeps the whole invariant |
| Results.FailureKeeps | internal/store/executions.go:358-424 | any failure commits and keeps the invariant: retry, repair root, or status change |
| Results.ReplaceKeeps | internal/store/recovery.go:98-125 | a replacement always commits and keeps the invariant |
| Results.SweepKeeps | internal/store/recovery.go:31-96 | a sweep of any stale batch commits and keeps the invariant |
| Results.ObservationKeeps | internal/store/executions.go:267-324 | recording any observation keeps the invariant |
| Results.RepairRootKeeps | internal/store/executions.go:392-424 | the first stale failure of a generation opens its one repair and keeps the invariant |
| ControlPlane.CreateKeeps | internal/store/monitors.go:21-56 | creating a monitor keeps the invariant |
| ControlPlane.ClaimKeeps | internal/store/executions.go:48-96 | claiming or renewing an execution keeps the invariant |
| ControlPlane.EnqueueKeeps | internal/store/executions.go:98-149 | a manual check keeps the invariant |
| ControlPlane.ScheduleKeeps | internal/store/monitors.go:277-329 | a scheduler batch commits and keeps the invariant |
| ControlPlane.ConfirmKeeps | internal/store/monitors.go:167-202 | confirmation keeps the invariant |
| ControlPlane.ReviewKeeps | internal/store/monitors.go:240-275 | accepting or rejecting a revision keeps the invariant |
| ControlPlane.PatchKeeps | internal/store/monitors.go:210-238 | pause, resume and edits keep the invariant, even `resume` without a current revision |
| ControlPlane.PublishKeeps | internal/store/outbox.go:34-75 | marking rows as published keeps the invariant |
| StoreObject.Store.constructor | internal/store/store.go:43-55 | a new store is empty, satisfies the invariant and uses three attempts unless configured with at least one |
| StoreObject.Store.CreateMonitor | internal/store/monitors.go:21-56 | the new state is the transaction's; both ids are fresh; an interval below one minute violates the constraint |
| StoreObject.Store.GetExecutionInput | internal/store/executions.go:48-96 | the new state is the transaction's; the caller gets the row's kind and input, and from a valid store the plan of the pinned revision, or none for a compilation |
| StoreObject.Store.EnqueueCheck | internal/store/executions.go:98-149 | the new state is the transaction's; an idempotency key finds its earlier execution and changes nothing; a created check is queued under an id no execution had; errors are the transaction's and change nothing |
| StoreObject.Store.NextGeneration | internal/store/executions.go:222-230 | the scan returns one more than the largest generation of the monitor |
| StoreObject.Store.EnqueueReplacement | internal/store/recovery.go:98-125 | succeeds exactly when the attempt table has one row for a repair, and then is the specified replacement |
| StoreObject.Store.ApplyPlanResult | internal/store/executions.go:222-265 | the statements add up to the specified proposal or promotion |
| StoreObject.Store.Promote | internal/store/executions.go:248-261 | installs the candidate as current and active |
| StoreObject.Store.RecordObservation | internal/store/executions.go:267-349 | rejects exactly the invalid observations; otherwise the appended row carries the posted values and the match, and latch, alert or confirmation follow |
| StoreObject.Store.HandleFailure | internal/store/executions.go:358-424 | every failure branch ends in the specified state or error; the first stale failure inserts the repair, its attempt and its message |
| StoreObject.Store.ApplyResult | internal/store/executions.go:151-220 | one atomic step: accepted only by an unfinished execution, anything else leaves the store as it was |
| StoreObject.Store.SelectStale | internal/store/recovery.go:37-60 | distinct stale rows up to the limit, all of them if fewer |
| StoreObject.Store.SweepRow | internal/store/recovery.go:60-91 | one iteration fails the row and replaces or terminalises it by its attempt number, skips a row that changed, and reports what it did |
| StoreObject.Store.SweepStaleExecutions | internal/store/recovery.go:31-96 | all stale rows up to the limit are replaced or terminalised as one step; from a valid store it never errors and reports every row with its attempt and outcome |
| StoreObject.Store.TerminalizeStale | internal/store/recovery.go:127-143 | exhausted work ends in the specified monitor and repair state |
| StoreObject.Store.SelectDue | internal/store/monitors.go:283-303 | distinct due monitors up to the limit, all of them if fewer |
| StoreObject.Store.ScheduleRow | internal/store/monitors.go:304-324 | one iteration enqueues a check pinned to the selected revision and advances the schedule, or finds no revision and changes nothing |
| StoreObject.Store.ClaimDueMonitors | internal/store/monitors.go:277-329 | one check for every due monitor up to the limit as one step, and from a valid store it never errors |
| StoreObject.Store.ActivateRevision | internal/store/monitors.go:171-197 | the statements add up to the confirmation, and a missing monitor rolls them back |
| StoreObject.Store.ConfirmMonitor | internal/store/monitors.go:167-202 | from a valid store it succeeds exactly for a pending revision of that monitor, and then the whole new state is the revision activated and the monitor active under it and the condition |
| StoreObject.Store.ReviewRevision | internal/store/monitors.go:240-275 | succeeds exactly for a pending revision of that monitor; the verdict decides the revision's state, current plan, status, schedule and attempts, everything else stays |
| StoreObject.Store.PatchMonitor | internal/store/monitors.go:210-238 | succeeds exactly for an existing monitor, a known action and an interval of at least a minute; then interval, condition, status and schedule are as asked, otherwise nothing changes |
| StoreObject.Store.PublishRows | internal/store/outbox.go:40-70 | the loop marks exactly the rows it published, in order, stopping at the limit or the first refusal |
| StoreObject.Store.ProcessOutbox | internal/store/outbox.go:34-75 | marks exactly the unpublished rows it published, in id order, up to the limit or the first refusal; with neither, everything is published |
| Delivery.SystemReached | worker/src/queue.ts:86-143 | the database invariant and the queue laws hold after every run of relay, stream, workers and store |
| Relay.OnlyRelayMarks | internal/store/outbox.go:18-28 | no transaction but the relay's commit marks an outbox row as published |
| Relay.OutboxGrows | internal/store/outbox.go:18-28 | every other transaction leaves the outbox as it is or appends unpublished rows |
| LostWork.NoLostWork | internal/store/outbox.go:18-75 | every execution has exactly one describing outbox row; if it is unfinished and readable, the row is unpublished or its message unacknowledged |
| LostWork.AcknowledgedIsTerminal | worker/src/queue.ts:113-126 | a session about to acknowledge holds a finished execution |
| LostWork.LostIffUnreadable | worker/src/queue.ts:101-108 | an unfinished execution can lose its message in some continuation if and only if its traceparent exceeds 512 characters |
| LostWork.LostStaysLost | worker/src/queue.ts:101-108 | in every run that does not name it, lost queued work stays lost and queued, and its monitor stays busy |
| LostWork.CreationCanBeLost | internal/store/monitors.go:21-56 | creating a monitor under any traceparent of more than 512 characters has a continuation that leaves its compilation lost and stuck |
| LostWork.UnreadableWaits | worker/src/queue.ts:101-108 | no relay, worker, scheduler or sweep step changes a queued execution with an unreadable message |
| LostWork.RowsPersist | internal/store/outbox.go:34-75 | along every run an outbox row changes only in its published mark, once |
| Worker.ProcessDelivery | worker/src/queue.ts:86-143 | terminated exactly when unreadable; acknowledged exactly when the execution was already finished or its result was accepted and the answer arrived; otherwise still in the stream; the new database is determined, and each call is a run of the system |
| Worker.HandleMessage | worker/src/queue.ts:109-139 | a readable message is acknowledged exactly when its input arrived and the execution was finished or its result accepted and answered |
| Worker.PostResult | worker/src/queue.ts:122-139 | acknowledged exactly when the job returned, the store accepted and the answer arrived; an accepted result whose answer is lost is applied but left for redelivery |
| AlertBook.CacheIsAggregate | internal/store/alerts.go:31-246 | after any interleaving the cached alert state equals the aggregate of its deliveries, and channels are unique per alert |
| AlertBook.WriteKeeps | internal/store/alerts.go:31-246 | each store call keeps that invariant and every settled delivery |
| AlertBook.ClosedIsFinal | internal/store/alerts.go:212-246 | a delivered or failed alert never changes again |
| AlertBook.SettledIsFinal | internal/store/alerts.go:116-210 | delivered and failed deliveries are final and attempt numbers never go back |
| AlertStoreObject.AlertStore.constructor | internal/store/alerts.go:31-50 | an empty book with the configured channels |
| AlertStoreObject.AlertStore.RefreshAlertState | internal/store/alerts.go:212-228 | one scan computes the aggregate; an alert without deliveries keeps its row |
| AlertStoreObject.AlertStore.RefreshAllAlertStates | internal/store/alerts.go:230-246 | every alert is refreshed as if alone |
| AlertStoreObject.AlertStore.InsertChannels | internal/store/alerts.go:42-48 | one delivery per configured channel that has none |
| AlertStoreObject.AlertStore.CreateAlert | internal/store/alerts.go:31-50 | a new alert with its deliveries, pending or unconfigured; keeps the invariant |
| AlertStoreObject.AlertStore.SelectBackfill | internal/store/alerts.go:60-79 | distinct alerts without deliveries, up to the limit, all of them if fewer |
| AlertStoreObject.AlertStore.Reconcile | internal/store/alerts.go:54-114 | backfill of all alerts without deliveries up to 500 and refresh as one step; exactly the free deliveries of removed channels are closed |
| AlertStoreObject.AlertStore.LeaseRows | internal/store/alerts.go:122-157 | the scan leases every available delivery until the limit, each with its next attempt number |
| AlertStoreObject.AlertStore.ClaimAlertDeliveries | internal/store/alerts.go:116-159 | leases due or expired deliveries of configured channels to the owner until the timeout, all of them if fewer than the limit, and touches no other row |
| AlertStoreObject.AlertStore.CompleteAlertDelivery | internal/store/alerts.go:161-178 | works exactly for the current lease holder: delivered now, and no other row moves |
| AlertStoreObject.AlertStore.FailAlertDelivery | internal/store/alerts.go:180-210 | works exactly for the current lease holder: failed when permanent or out of attempts, else pending until the next attempt; no other row moves |
| AlertEffects.AlertStateMeans | internal/store/alerts.go:212-246 | after every history: pending while any delivery is open, delivered when all are, at the last one's time, failed when none is open and one failed, unconfigured without deliveries |
| AlertEffects.CreationDelivers | internal/store/alerts.go:31-50 | a new alert has exactly one pending delivery per configured channel, untried and due at once |
| AlertEffects.BackfillMeans | internal/store/alerts.go:60-63 | after every history the alerts to backfill are exactly those without a delivery |
| AlertEffects.ReconcileServes | internal/store/alerts.go:80-96 | a reconciled alert has a delivery for every configured channel |
| AlertEffects.LeaseHolds | internal/store/alerts.go:116-159 | a lease keeps the delivery from everybody until it runs out, at least a second later, and not longer |
| DeliveryRunner.FleetReached | internal/alertdelivery/runner.go:86-147 | the fencing invariant holds after every run of any number of runners with crashes and expired leases |
| DeliveryRunner.PendingHasAttemptsLeft | internal/alertdelivery/runner.go:86-147 | a pending delivery always has fewer than six attempts |
| DeliveryRunner.SupersededIsFenced | internal/store/alerts.go:161-210 | a handle superseded by a later claim changes nothing |
| DeliveryRunner.ClaimsAreNumbered | internal/store/alerts.go:116-159 | along every run each claim of a delivery gets a strictly larger attempt number than every claim before it, settled or not |
| DeliveryRunner.RowsAlong | internal/alertdelivery/runner.go:86-147 | along every run settled deliveries stay and attempt numbers never go back |
| DeliveryRunner.BoundKeptIff | internal/store/alerts.go:180-210 | a store call keeps every pending delivery below the cap if and only if it is not the lease holder's retryable failure of an exhausted delivery under a smaller attempt number |
| DeliveryRunner.BoundHoldsIff | internal/store/alerts.go:116-210 | over every history of store calls the bound holds throughout if and only if no call does that |
| DeliveryRunner.StaleAttemptReopens | internal/store/alerts.go:180-210 | without the batch discipline the bound fails: a concrete sequence of calls |
| DeliveryRunner.JudgeMeans | internal/alertdelivery/runner.go:106-147 | 2xx is delivered; a transport error, 408, 425, 429 or 5xx may be retried, every other status is final; the wait is the server's, clamped to a second and an hour, else 5, 10, 20, ... 640 and then 900 seconds |
| DeliveryRunner.RetryIsBounded | internal/alertdelivery/runner.go:296-329 | the next attempt is one second to one hour away, backoff never shrinks and stays within 5 s and 15 min; permanent exactly for answers other than 408, 425, 429 and 5xx |
| DeliveryRunner.DeliverOne | internal/alertdelivery/runner.go:106-147 | for the lease holder a 2xx leaves the row delivered, a retryable answer below six attempts leaves it pending until the stated time, everything else leaves it failed; no other row moves |
| Money.Decimal | internal/alertdelivery/runner.go:331-346 | the numeral's value is the number |
| Money.FormatMoney | internal/alertdelivery/runner.go:331-359 | prints sign, upper-case code and amount with the currency's number of decimals |
| Money.FormatAmount | internal/alertdelivery/runner.go:331-346 | the divisor loop yields the power of ten that splits the amount |
| Money.ParsePrice | worker/src/validation.ts:21-92 | the branches, loops and rewriting compute the parser's specification |
| Money.DetectSymbols | worker/src/validation.ts:31-36 | the currencies of all symbol matches |
| Money.DetectCodes | worker/src/validation.ts:37-39 | the currencies whose code occurs as a word |
| Money.FindNumbers | worker/src/validation.ts:44-48 | all numeric tokens, leftmost and greedy |
| Money.NormaliseToken | worker/src/validation.ts:67-86 | the rewriting of separators by branches |
| Money.NormaliseOne | worker/src/validation.ts:75-85 | with one kind of separator the last one decides by the digits after it |
| MoneyRoundTrip.MoneyRoundTrips | internal/alertdelivery/runner.go:331-359 | parsing the printed text gives amount and currency back if and only if the amount is positive, for each supported currency in any capitalisation |
| MoneyRoundTrip.PrinterExact | internal/alertdelivery/runner.go:331-346 | for every amount, code and number of decimals the printed digits are the amount, with sign and code before them |
| MoneyRoundTrip.SpellingsAgree | worker/src/validation.ts:21-92 | comma, dot, space, no-break-space or no grouping, either decimal mark, two decimals or none, bare or with any code or symbol before or after it, with or without a space: amount and currency are read exactly, zero is refused, and only a code glued to the number is not read as a currency |
| MoneyRoundTrip.TokenMatch | worker/src/validation.ts:44-48 | the scanner takes a whole spelled number as one token, and nothing of the label after it |
| MoneyRoundTrip.NormaliseSpelled | worker/src/validation.ts:67-86 | grouping separators go, the decimal mark becomes a dot, whichever characters were used |
| MoneyRoundTrip.LabelledParse | worker/src/validation.ts:21-66 | one token with a label on either side passes every refusal and gives the label's currency |
| MoneyRoundTrip.NumberExact | worker/src/validation.ts:87-91 | the normalised text has the exact amount in minor units |
| PriceRefusals.PartialPriceRefused | worker/src/validation.ts:23-25 | a text with the word from, starting at, per month, monthly, installment or finance, however capitalised, is refused |
| PriceRefusals.MonthlyRateRefused | worker/src/validation.ts:23-25 | so is one with "/ mo" or "/ month", with any spaces |
| PriceRefusals.ForeignCurrencyRefused | worker/src/validation.ts:27-29 | any of the eleven foreign currency signs, or the word JPY, refuses the price |
| PriceRefusals.ConflictRefused | worker/src/validation.ts:37-42 | two different currency codes in one text refuse the price |
| PriceRefusals.NumberNeeded | worker/src/validation.ts:44-51 | a text without a digit is refused |
| PriceRefusals.OneNumberOnly | worker/src/validation.ts:44-51 | a text with two numbers kept apart by anything but digits and separators is refused |
| PriceRefusals.TokensHoldDigits | worker/src/validation.ts:44-48 | the tokens cover every digit and hold nothing but digits and separators |
| PriceRefusals.ForeignCodeRefused | worker/src/validation.ts:52-65 | a spelled number with three capitals of no supported currency before or after it is refused |
| PageReadings.AvailabilityMeans | worker/src/extract.ts:125-130 | only letters count; any word for absence means out of stock, else any word for presence means in stock, else the text is an error |
| PageReadings.LettersMeans | worker/src/extract.ts:125-126 | the comparison keeps exactly the letters, in order and in lower case |
| PageReadings.LabelNamesCurrency | worker/src/extract.ts:132-149 | each of the five codes and six signs names its currency |
| PageReadings.OnlyLabelsName | worker/src/extract.ts:132-149 | nothing else names a currency |
| PageReadings.VariantMeans | worker/src/extract.ts:41-50 | an attribute is selected exactly when some strategy for it succeeds, with the value the last of them reads |
| PageReadings.FieldsRead | worker/src/extract.ts:109-123 | where each JSON-LD field is read; an offer's own price goes before its lowest, null counts as missing |
| PageReadings.FoundIsProduct | worker/src/extract.ts:94-107 | what the search returns is an object whose type is or includes Product |
| PageReadings.PageProductMeans | worker/src/extract.ts:77-92 | the product is that of the first of the first twenty usable scripts that has one, else none of them has one |
| PageReadings.ObservationMeans | worker/src/extract.ts:32-63 | an observation is what the plan's strategies read; the currency comes from its own strategies, else from the price text, else it is the expected one |
| Extraction.ReadProductJsonLd | worker/src/extract.ts:77-92 | the first Product of the first twenty usable scripts |
| Extraction.ReadFirst | worker/src/extract.ts:18-30 | succeeds exactly when some strategy does, with the trimmed value of the first that does |
| Extraction.ReadVariants | worker/src/extract.ts:41-50 | the attributes read so far, later strategies overriding earlier ones, failures skipped |
| Extraction.ExtractObservation | worker/src/extract.ts:12-63 | the observation or the first error in the order of the reads |
| VariantIndependence.IndependentIff | worker/src/extractorPolicy.ts:20-50 | the outcome ignores the JSON-LD price, SKU and availability if and only if no strategy handed in reads them and the plan has a requested variant, or takes title, price, availability and SKU all from the JSON-LD title |
| VariantIndependence.OutcomeAlike | worker/src/extract.ts:12-63 | two pages with equal rendering and equal JSON-LD title and currency give the same outcome through every fallback |
| VariantIndependence.TitleOnlyAlike | worker/src/extractorPolicy.ts:28-49 | a plan that takes everything from the JSON-LD title never reaches a fallback to the offer |
| VariantIndependence.OthersTell | worker/src/extractorPolicy.ts:28-49 | every other plan gives different outcomes on two agreeing sample pages |
| VariantIndependence.EvidenceIsBound | worker/src/extractorPolicy.ts:13-19 | price, availability and SKU of a variant observation were read by the strategies compiled for them; if one fails there is no observation |

## Left out

- Postgres locking and isolation: a transaction is one atomic step, so `FOR UPDATE`, `SKIP LOCKED` and read-committed snapshots are not modelled.
- StoreObject.Store.ApplyResult: asks that the execution's monitor exists, which is the foreign key of the executions table; the sweep and the retry use the same configured attempt bound, as cmd/scout/main.go passes it.
- Delivery: stream expiry after seven days and the length of the de-duplication window are not modelled; the stream may suppress or keep any duplicate of a stored message, and no message expires.
- Columns without influence on the protocol: texts, timestamps other than claim and schedule times, providers, trace ids, session URLs, error texts, outbox attempt counters and last errors.
- Artifact rows: a result carries only whether all its artifacts are valid.
- Ids: `uuid.New()` is a counter; row ids of append-only tables are positions.
- Widths: 64-bit integers are unbounded, and `Math.round(value * 100)` is computed on exact decimals instead of IEEE doubles.
- Character classes: `strings.EqualFold`, blank checks and lower-casing are ASCII only.
- Alert rows of the control plane and the delivery columns of the same table are modelled in separate modules; createAlert appears once in each.
- DeliveryRunner: the text of a Retry-After header is already split into seconds, a date or neither; request signing, Discord formatting and the HTTP client are not modelled.
- Extraction: page reads happen on one unchanging page, error texts are reduced to the field or step that failed, the SHA-256 fingerprint is omitted, and numbers in JSON-LD are held as the text they print as.
- validateObservation, titleSimilarity and Unicode normalisation: not modelled.
- The compiler, browser sessions, URL and action safety, HTTP routes, configuration, metrics, the web console and deployment: not modelled; a worker result is an arbitrary value.
- worker/src/queue.ts pull loop, heartbeat and backoff: only which messages are acknowledged, returned or terminated is modelled.
