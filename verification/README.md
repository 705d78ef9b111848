# Billing: models and proofs

A Dafny model of the stateful cores of the billing service: how stored webhooks are claimed and
retried, how subscriptions and the access windows they grant move together, how failed payments
are dunned, how idempotency keys keep charges and webhook handlers from being repeated, and the
smaller stores beside them (rate limiter, disk spool, in-memory cache, payment ledger, CCBill
aliases) and the check of a Solana payment.

Tables are sequences or maps, and one SQL statement is one atomic step. Time is a number of
nanoseconds on one clock that does not go back. Objects that the program changes step by step are
classes whose methods are proved against functions on values; what the program promises is proved
about those functions, over all inputs and over all runs. A run is a sequence of steps; a step that
is not enabled changes nothing. Where calls interleave, each step of each caller is a step of the
run, and a caller may stop for good after any of them.

| module | what it models |
|---|---|
| WebhookRetry, WebhookEvents, WebhookProtocol | retry schedule, webhook table and service, racing workers |
| Subscriptions, Lifecycle, CCBillWebhooks | subscription rows and records, the lifecycle operations and the CCBill changes as transactions |
| LifecycleOutcomes | what each of these operations leaves in the two tables, and exactly when it is refused |
| Entitlements, EntitlementRuns, MembershipAccess | access windows, runs of one-off purchases, how windows follow subscriptions |
| RetryCounters, Dunning, DunningTiming | retry fields over all runs, the sweep and attempt jobs, their timing |
| Idempotency, IdempotencyRuns, Subscribe | the idempotency table, concurrent requests, the NMI subscription charge and its key |
| Deduplication, NMIWebhooks | redelivered webhooks, NMI sale notifications |
| NMISales, NMIRenewals | what a sale leaves behind in memberships and ledger, and what all its deliveries do to the paid period |
| RateLimit, RateLimitHistories, RateLimitMiddleware | both request limiters, the fallback from one to the other, histories of requests |
| Spool | the disk spool and its eviction |
| MemoryCache, MemoryCacheRuns | the cache with expiring items, against a plain timed map |
| Payments | the payment ledger and its refunds |
| CCBillAliases, CCBillAliasRuns | the alias table and concurrent allocation |
| Solana | the content check of a Solana transaction |
| GoInt, Strings, Wrappers | int64 arithmetic, trimming and case of ASCII text, options and results |

What the proofs bring out about the code, each as a lemma that also says exactly when it happens
or shows a run in which it does:

- The backoff product can overflow an int64 under a configuration that validates; the wait is then
  negative (`ScheduleIsExactIffProductFits`, `BackoffOverflowWitness`).
- A worker that crashes leaves its event in processing for good (`StrandedExactlyWhenNotHeld`).
- A first payment that fails and is then recovered gives an active subscription that holds no
  window (`PaidButNotEntitled`); `CoverageIsKeptExactlyWhen` is the exact condition.
- Two sweeps before the attempts have run enqueue a subscription twice, and the 72 hours between
  failures are lost (`SecondSweepDuplicates`, `DuplicateJobsBreakTheSpacing`); `AttemptIsSpacedIff`
  and `SpacedExactlyWhenPunctual` are the exact conditions.
- A window of a membership starts when the days its user had bought are over. Until then the table
  refuses to end it, the refusal is only logged, and the transaction is rolled back: an immediate
  cancellation, an expiry, a refund, a chargeback or a fifth failed payment is lost
  (`ClosingIsLost`, `FiveFailuresWhileDaysLast`); `ClosingLandsExactlyWhen` and
  `FailLandsExactlyWhen` are the exact conditions. A fifth failure that is lost leaves the
  subscription due at every sweep (`LostFailureIsDueAgain`).
- The spool counts the bytes of a new record twice, and a record that does not fit twice empties
  the spool (`EnqueueSucceedsIffRoom`).
- The late delete of a cache Get can take an item that was set meanwhile (`OnlyLateDeleteLoses`).
- A subscription request whose charge or vaulting failed, or that went away, blocks its purchase for
  good (`TakenSlotIsRefusedForever`, `ChargeableExactlyWhen`).
- Two NMI events about one transaction, or one event delivered again after a fault, renew twice for
  one payment (`OneTransactionRenewsTwice`); `OneCycleExactlyWhen`, `FirstSaleGivesOneCycleExactlyWhen`
  and `DeliveryExtendsExactlyWhen` are the exact conditions.
- A payment due in a token is accepted when as many lamports are sent (`LamportsPassForTokens`);
  `AcceptanceMeansTokensExactlyWhen` says when an acceptance does mean tokens. Mints are compared
  without regard to case (`MintsMatchIgnoringCase`).
- The two request limiters count apart: however Redis fails in between, at most one less than four
  times the threshold is admitted in 60 seconds (`FourTimesTheThreshold`), and that many can be
  (`BoundIsReached`).

`dafny verify dfyconfig.toml` checks everything.

## Model

| member | source | states |
|---|---|---|
| `WebhookRetry.DefaultingIsValid` | config/config.go:366-388 | each setting is the one given or its default when not positive, the longest wait no shorter than the first; the result passes start-up validation, and what passes it is not changed |
| `WebhookRetry.BackoffWhileFits` | internal/manager/web/webhook/webhook_event_service.go:195-205 | while Initial*2^(n-1) fits an int64 the wrapped computation is min(Max, Initial*2^(n-1)), inside [Initial, Max] |
| `WebhookRetry.BackoffMonotone` | internal/manager/web/webhook/webhook_event_service.go:195-205 | later attempts never wait less, as long as the later product fits |
| `WebhookRetry.FirstOverflowIsNegative` | internal/manager/web/webhook/webhook_event_service.go:199-204 | once a product does not fit, some earlier or equal attempt gets a negative wait |
| `WebhookRetry.ScheduleIsExactIffProductFits` | internal/manager/web/webhook/webhook_event_service.go:153-168 | all waits MarkFailure asks for follow the doubled-and-capped schedule if and only if the last product fits an int64 |
| `WebhookRetry.DefaultScheduleIsExact` | config/config.go:357-364 | the shipped defaults meet that condition |
| `WebhookRetry.BackoffOverflowWitness` | config/config.go:340-355 | a configuration that validates and schedules its 29th failure in the past |
| `WebhookEvents.WebhookEventService.Create` | internal/manager/web/webhook/webhook_event_service.go:48-83 | refuses a blank processor, a missing type or address, in this order; a new event is pending, without attempts, due at once |
| `WebhookEvents.WebhookEventService.BeginProcessing` | internal/manager/web/webhook/webhook_event_service.go:98-118 | the claim succeeds exactly for an existing pending or failed row, counts the attempt and clears the due time |
| `WebhookEvents.WebhookEventService.MarkProcessed` | internal/manager/web/webhook/webhook_event_service.go:121-137 | the row becomes processed whatever it was; a missing row is no error |
| `WebhookEvents.WebhookEventService.MarkFailure` | internal/manager/web/webhook/webhook_event_service.go:141-173 | below MaxAttempts the row is failed and due min(Max, Initial*2^(n-1)) from now, not earlier, while that product fits; from MaxAttempts on it is error and never due; the message is cut at 2048 characters |
| `WebhookEvents.WebhookProcessor.Process` | internal/manager/web/webhook/webhook_processor.go:18-40 | claim, dispatch and mark: the row after the call, whether to retry, and that an event that cannot be claimed is left alone |
| `WebhookEvents.WebhookProcessor.RetryBatch` | internal/manager/data/river/jobs_webhooks.go:58-79 | a retry sweep settles every event of its batch once, touches no other, and reports the first failure |
| `WebhookEvents.FirstFailureIsFirst` | internal/manager/data/river/jobs_webhooks.go:58-79 | the error kept is that of the first event of the batch that failed |
| `WebhookProtocol.MutualExclusion` | internal/manager/web/webhook/webhook_processor.go:18-40 | any workers, any interleaving, crashes anywhere: at most one worker between claim and mark of an event, the event then in processing, the snapshot equal to the stored count |
| `WebhookProtocol.DispatchBound` | internal/manager/web/webhook/webhook_event_service.go:104-112 | an event is dispatched at most MaxAttempts times; failed means fewer attempts than that, error exactly that many |
| `WebhookProtocol.SuccessIsFinal` | internal/manager/web/webhook/webhook_processor.go:18-40 | a successful dispatch of an event is its last |
| `WebhookProtocol.FailedMarkWaits` | internal/manager/web/webhook/webhook_event_service.go:141-173 | in every reachable state a mark after a failed dispatch makes the row due min(Max, Initial*2^(n-1)) later, n its stored attempts, or error from MaxAttempts on |
| `WebhookProtocol.FailedRowsAreDueAfterTheirMark` | internal/manager/web/webhook/webhook_event_service.go:141-173 | in every run a failed row is due exactly that long after the mark that failed it |
| `WebhookProtocol.StepLowersMeasure` | internal/manager/web/webhook/webhook_event_service.go:104-168 | 2*(MaxAttempts-attempts), plus one while processing, falls with every change of a row; processed and error rows do not change |
| `WebhookProtocol.AbsorbedForever` | internal/manager/web/webhook/webhook_event_service.go:104-112 | over any further run a processed or error row stays as it is |
| `WebhookProtocol.WorkIsBounded` | internal/manager/web/webhook/webhook_event_service.go:104-168 | no run, however long, changes an event row more than 2*MaxAttempts times |
| `WebhookProtocol.StrandedForever` | internal/manager/web/webhook/webhook_event_service.go:104-112 | a row left in processing by a crash is never touched or dispatched again |
| `WebhookProtocol.StrandedExactlyWhenNotHeld` | internal/manager/web/webhook/webhook_event_service.go:104-112 | a row in processing can still change if and only if some worker holds the event |
| `WebhookProtocol.RunKeepsInv` | internal/manager/web/webhook/webhook_processor.go:18-40 | every step of the protocol keeps the invariant behind these results |
| `WebhookProtocol.ProcessIsThreeSteps` | internal/manager/web/webhook/webhook_processor.go:18-40 | Process run alone is the run of its three steps |
| `Subscriptions.SubscriptionRecord.UpdateCurrentPeriods` | pkg/db/models/subscription.go:76-97 | the next period starts at a non-zero period end, else now, and lasts the cycle or 30 days |
| `Subscriptions.SubscriptionRecord.ActivateWithPrice` | pkg/db/models/subscription.go:99-115 | the new price, an extended period, active, and all cancellation fields cleared |
| `Subscriptions.SubscriptionRecord.ResetCurrentPeriods` | pkg/db/models/subscription.go:117-131 | a missing or zero period end is an error; a period that has run out is zeroed and ended |
| `Subscriptions.SubscriptionRecord.Cancel` | pkg/db/models/subscription.go:133-147 | resets the period, then cancels with type and reason; nothing changes on the error |
| `Entitlements.GetLatestActive` | internal/manager/data/repo/entitlement.go:40-53 | the unrevoked window with the latest start, none exactly when there is none |
| `Entitlements.GetLatestFiniteActive` | internal/manager/data/repo/entitlement.go:55-71 | of the finite windows that cover a time, the one that ends last |
| `Entitlements.EntitlementService.GrantWindow` | internal/manager/api/entitlement/entitlement_service.go:84-101 | appends the window, or is refused: a range cannot end before it starts, and two partial unique indexes |
| `Entitlements.EntitlementService.AppendEntitlementDays` | internal/manager/api/entitlement/entitlement_service.go:51-76 | refuses non-positive days and users with an active open window, else appends a window at the latest end, or now, if the table takes it |
| `Entitlements.AppendLandsExactlyWhen` | internal/manager/api/entitlement/entitlement_service.go:51-76 | bought days are granted if and only if they are positive and do not wrap below zero, no unrevoked window without an end has started, and none starts where they begin; they are then one window from the end of the one that starts last, or from now |
| `Entitlements.EntitlementService.EndActiveBySubscription` | internal/manager/data/repo/entitlement.go:118-131 | ends the open windows of one subscription if and only if all of them have started by the end time; otherwise the table refuses the update and nothing changes |
| `Entitlements.EndActiveLandsExactlyWhen` | internal/manager/data/migrations/postgres/001_setup_billing_tables.up.sql:150 | ending the windows of a source lands if and only if all that are open have started by the end time |
| `Entitlements.EndActiveRevokesExactly` | internal/manager/data/repo/entitlement.go:118-146 | once it lands, access is exactly what the other windows give: those of other sources and those with an end |
| `Entitlements.EndActiveKeepsFinite` | internal/manager/data/repo/entitlement.go:118-146 | windows that have an end, or another source, survive |
| `EntitlementRuns.PurchasesUnbroken` | internal/manager/api/entitlement/entitlement_service.go:51-76 | after any interleaving of purchases the windows of a user and name form a chain as long as the days paid |
| `EntitlementRuns.PurchasesGiveExactlyThePaidInterval` | internal/manager/api/entitlement/entitlement_service.go:51-76 | the windows abut and are disjoint, and IsEntitled(t) holds exactly on one interval of the days paid |
| `EntitlementRuns.ChainCovers` | internal/manager/data/repo/entitlement.go:19-28 | abutting windows cover exactly the times from the first start to the last end |
| `EntitlementRuns.FirstStartIsKept` | internal/manager/api/entitlement/entitlement_service.go:68-72 | the interval starts when the first purchase was made, whatever follows |
| `GoInt.DaysDurationExact` | internal/manager/api/entitlement/entitlement_service.go:73 | the int64 length of a number of days, of either sign, is exact if and only if it is at most 106751 in absolute value |
| `Lifecycle.LatestByUser` | internal/manager/api/lifecycle/lifecycle_service.go:150-153 | the user row that membership creation reuses is the last one created |
| `Lifecycle.SubscriptionLifecycleService.WriteBack` | internal/manager/data/migrations/postgres/001_setup_billing_tables.up.sql:70 | a row is stored unless it would be a second active subscription of its user |
| `Lifecycle.SubscriptionLifecycleService.Enroll` | internal/manager/api/lifecycle/lifecycle_service.go:150-224 | reuses the latest row of the user or inserts one; an active row refuses |
| `Lifecycle.SubscriptionLifecycleService.GrantNames` | internal/manager/api/lifecycle/lifecycle_service.go:243-264 | names are granted one by one, those already held are skipped, each starting after the finite window active now |
| `Lifecycle.SubscriptionLifecycleService.Create` | internal/manager/api/lifecycle/lifecycle_service.go:102-279 | the whole creation, all of it or nothing |
| `Lifecycle.SubscriptionLifecycleService.Renew` | internal/manager/api/lifecycle/lifecycle_service.go:282-366 | the renewal of one subscription, all of it or nothing |
| `Lifecycle.SubscriptionLifecycleService.Cancel` | internal/manager/api/lifecycle/lifecycle_service.go:370-480 | the cancellation, immediate or not, with the windows it ends, or nothing when the table refuses to end one |
| `Lifecycle.SubscriptionLifecycleService.Expire` | internal/manager/api/lifecycle/lifecycle_service.go:483-538 | the expiry, with the windows it ends, or nothing when the table refuses to end one |
| `Lifecycle.SubscriptionLifecycleService.Fail` | internal/manager/api/lifecycle/lifecycle_service.go:541-640 | a failed payment: counted, then past due with a next attempt, or cancelled at the fifth with the windows it ends; nothing when the table refuses to end one |
| `LifecycleOutcomes.CancelLeavesThePaidPeriod` | internal/manager/api/lifecycle/lifecycle_service.go:410-446 | a cancellation that is not immediate, in a running period or without one, always lands, keeps the period end and every window, and changes nobody's access at any time |
| `LifecycleOutcomes.LateCancelEndsAtThePeriodEnd` | internal/manager/api/lifecycle/lifecycle_service.go:410-446 | after the period end it lands if and only if every open window started by that end; each then ends at that end, revoked now, and none is left |
| `LifecycleOutcomes.ImmediateCancelEndsNow` | internal/manager/api/lifecycle/lifecycle_service.go:410-446 | an immediate one lands if and only if every open window has started; period and windows end now |
| `LifecycleOutcomes.ExpiryEndsNow` | internal/manager/api/lifecycle/lifecycle_service.go:483-514 | an expiry lands on the same condition: cancelled, ended, and its open windows end now |
| `LifecycleOutcomes.FailureSchedulesOrCancels` | internal/manager/api/lifecycle/lifecycle_service.go:570-605 | failures one to four: past due, one attempt more, due in 72 hours, no window touched; from the fifth on cancelled with the windows ended, if they have started |
| `LifecycleOutcomes.RenewalExtendsByTheCycle` | internal/manager/api/lifecycle/lifecycle_service.go:282-344 | a renewal lands if and only if the price is known with a cycle and no other subscription of the user is active; active, extended by the cycle from the old end or from now, cancellation cleared, windows as they were |
| `LifecycleOutcomes.EndedAccess` | internal/manager/data/repo/entitlement.go:118-146 | after a change that ends the open windows of a subscription, access is exactly what the others give |
| `LifecycleOutcomes.RequestAddsAPendingRow` | internal/manager/api/subscription/subscription.go:127-134 | a request is refused when the latest row of the user is active; otherwise it adds a pending row without period or attempts |
| `LifecycleOutcomes.CreationLandsExactlyWhen` | internal/manager/api/lifecycle/lifecycle_service.go:102-279 | a membership is created if and only if price and product are known, no row of the user is active, and each entitlement is held already or meets no unrevoked window that is open or starts where its grant would |
| `LifecycleOutcomes.CreationOpensTheProduct` | internal/manager/api/lifecycle/lifecycle_service.go:150-264 | the latest row of the user, or a new one, is active for the cycle or 30 days; every entitlement of the product, or "premium", is open; old windows stay and new ones are open grants of this subscription, none before now |
| `LifecycleOutcomes.RunKeepsOneActive` | internal/manager/data/migrations/postgres/001_setup_billing_tables.up.sql:70 | in every run a user never has two active subscriptions |
| `MembershipAccess.RunKeepsSound` | internal/manager/api/lifecycle/lifecycle_service.go:228-265 | over every run, disciplined or not: unrevoked subscription windows are open, belong to the right user, are one per name, and have no gap before them |
| `MembershipAccess.RunKeepsRanges` | internal/manager/data/migrations/postgres/001_setup_billing_tables.up.sql:150 | no run stores a window that ends before it starts |
| `MembershipAccess.CoverageIsKeptExactlyWhen` | internal/manager/api/lifecycle/lifecycle_service.go:282-344 | an operation keeps every live subscription covered if and only if the windows its outcome needs were already open |
| `MembershipAccess.DisciplinedRunCovers` | internal/manager/api/lifecycle/lifecycle_service.go:228-265 | coverage is an invariant of every run in which Renew, Fail, Reactivate and Upgrade act on live subscriptions |
| `MembershipAccess.LiveHoldsExactlyOneWindowPerName` | internal/manager/api/lifecycle/lifecycle_service.go:228-265 | in such runs each live subscription has exactly one unrevoked open window per entitlement of its product |
| `MembershipAccess.OpenWindowGivesAccess` | internal/manager/data/repo/entitlement.go:19-28 | an open subscription window gives access at every time from the clock on |
| `MembershipAccess.LiveSubscribersAreEntitled` | internal/manager/data/repo/entitlement.go:19-28 | end to end: in such runs a live subscriber is entitled to every grant of the product, now and at every later time |
| `MembershipAccess.GrantLeavesNoGapAndNoOverlap` | internal/manager/api/lifecycle/lifecycle_service.go:243-264 | a grant at now gives access at every t >= now and starts no earlier than the finite windows active at now end |
| `MembershipAccess.ClosingLandsExactlyWhen` | internal/manager/api/lifecycle/lifecycle_service.go:434-446 | a change that ends windows is stored if and only if every open window of the subscription has started by the end time, and a refund or chargeback finds a period end |
| `MembershipAccess.ClosingRevokesAll` | internal/manager/api/lifecycle/lifecycle_service.go:410-446 | when all its windows have started, an immediate cancellation, expiry, fifth failure, terminating refund or chargeback is stored and leaves no unrevoked window |
| `MembershipAccess.RefusedClosingChangesNothing` | internal/manager/api/lifecycle/lifecycle_service.go:434-446 | a closing that does not land changes nothing: the subscription stays as it was and keeps its windows |
| `MembershipAccess.RefusedClosingHasDaysLeft` | internal/manager/api/lifecycle/lifecycle_service.go:253-261 | in every reachable state a window that cannot be ended yet is preceded by bought days in force that lead up to it |
| `MembershipAccess.ClosingIsLost` | internal/manager/api/lifecycle/lifecycle_service.go:253-261 | for every state, new user and product with one entitlement: days bought, then a membership, then an immediate cancellation, expiry, terminating refund or chargeback before the days are over leaves it active with its window open |
| `MembershipAccess.NothingUntilNextCreate` | internal/manager/api/lifecycle/lifecycle_service.go:228-265 | over any run a subscription without windows gets none until the next Create of its user |
| `MembershipAccess.ClosedStaysClosed` | internal/manager/api/lifecycle/lifecycle_service.go:499-514 | a subscription closed anywhere in any run, by a closing that lands, has no window until the next Create of its user |
| `MembershipAccess.PaidButNotEntitled` | internal/manager/api/lifecycle/lifecycle_service.go:282-344 | for every state and every new subscriber: a first payment that fails and then recovers leaves the subscription active without a window |
| `RetryCounters.PastDueIsScheduled` | internal/manager/api/lifecycle/lifecycle_service.go:570-591 | in every reachable state a past-due subscription has 1 to 4 attempts and is due 72 hours after the last; attempts never decrease |
| `RetryCounters.OthersKeepRetryFields` | internal/manager/api/lifecycle/lifecycle_service.go:541-591 | only Fail writes the retry fields or makes a row past due |
| `RetryCounters.FailLandsExactlyWhen` | internal/manager/api/lifecycle/lifecycle_service.go:570-605 | a failed payment of an existing subscription is stored if and only if it is no fifth one or every open window has started; it touches no other row |
| `RetryCounters.AttemptsCountFailures` | internal/manager/api/lifecycle/lifecycle_service.go:573-579 | over any run the stored counter is the number of failed payments that were stored, which the first four always are |
| `RetryCounters.FifthFailureCancels` | internal/manager/api/lifecycle/lifecycle_service.go:581-605 | the first four failures leave past due; a further one leaves cancelled if and only if every open window has started, and else changes nothing |
| `RetryCounters.FifthFailureIsLost` | internal/manager/api/lifecycle/lifecycle_service.go:597-605 | a fifth failure before a window has started leaves the row past due with four attempts, and still due |
| `RetryCounters.FiveFailuresWhileDaysLast` | internal/manager/api/lifecycle/lifecycle_service.go:597-605 | for every state, new user and product with one entitlement: days bought, a membership, and five failures before the days are over leave it past due with four attempts and its window open |
| `Dunning.DueIds` | internal/manager/data/river/jobs_dunning.go:205-220 | the sweep finds exactly the NMI subscriptions that are past due and whose retry time has come, each once |
| `Dunning.DunningJobs.Sweep` | internal/manager/data/river/jobs_dunning.go:205-237 | enqueues those whose insert is not refused and counts them |
| `Dunning.DunningJobs.Attempt` | internal/manager/data/river/jobs_dunning.go:48-184 | answer by answer: an approved charge renews and records its payment, the three failing answers count one failure, no client or another processor changes nothing; and what a renewal or failure that lands leaves behind |
| `Dunning.ChargeIsRecordedIff` | internal/manager/data/river/jobs_dunning.go:150-184 | an approved charge leaves no new payment row exactly when its transaction id was recorded before or its amount does not fit the column; otherwise one row of this user, price, id and the cents of the amount is added |
| `Dunning.RenewalMeansRenewed` | internal/manager/data/river/jobs_dunning.go:142-148 | a renewal that lands leaves the subscription active and extended, the others and all windows as they were, and no sweep at any time takes it |
| `DunningTiming.ApprovedAttemptRenews` | internal/manager/data/river/jobs_dunning.go:142-148 | in the loop an approved attempt renews exactly when nothing refuses it, and else only takes its job |
| `DunningTiming.FailingAttemptCounts` | internal/manager/data/river/jobs_dunning.go:93-140 | without a payment method, on a failed request or a decline, one failure is counted when it lands, and else only the job is taken |
| `DunningTiming.IdleAttemptDropsTheJob` | internal/manager/data/river/jobs_dunning.go:74-91 | without a client, or for another processor, only the job is taken |
| `DunningTiming.FailuresAreSpaced` | internal/manager/data/river/jobs_dunning.go:93-140 | in every run of the loop, recorded failures i and j of a subscription are at least (j-i)*72h apart |
| `DunningTiming.FailureIsSpacedIff` | internal/manager/api/lifecycle/lifecycle_service.go:570-591 | from any spaced history one more failure keeps the 72 hours if and only if they have passed since the last failure in the row, or it is not stored |
| `DunningTiming.AttemptIsSpacedIff` | internal/manager/data/river/jobs_dunning.go:93-140 | an attempt on a past-due subscription, however it was enqueued, keeps them if and only if it does not fail, its failure is not stored, or the stored retry time has come |
| `DunningTiming.SpacedExactlyWhenPunctual` | internal/manager/api/lifecycle/lifecycle_service.go:570-591 | over every run of lifecycle operations, whatever is behind them, the recorded failures of a subscription are 72 hours apart if and only if each comes when its row allows it |
| `DunningTiming.NoCancellationBeforeTwelveDays` | internal/manager/api/lifecycle/lifecycle_service.go:581-591 | the step by which dunning cancels comes at least 12 days after the first failure |
| `DunningTiming.TwelveDaysAreReached` | internal/manager/data/river/jobs_dunning.go:205-237 | punctual rounds that are all declined cancel exactly 12 days after the first failure, if and only if every open window has started by then; else the subscription stays past due with four attempts |
| `DunningTiming.LostFailureIsDueAgain` | internal/manager/data/river/jobs_dunning.go:125-140 | after a fifth failure that is not stored the subscription is as due as before: any later sweep enqueues it for another charge |
| `DunningTiming.OnlyAFailureCancels` | internal/manager/api/lifecycle/lifecycle_service.go:581-591 | in the loop a subscription is cancelled only by its own fifth failure, recorded at that instant |
| `DunningTiming.SweepEnqueuesEachDueOnce` | internal/manager/data/river/jobs_dunning.go:205-237 | whatever is queued, a sweep adds exactly one job per due subscription and no other |
| `DunningTiming.SecondSweepDuplicates` | internal/manager/data/river/jobs_dunning.go:205-237 | a second sweep before the attempts have run enqueues every due subscription again |
| `DunningTiming.DuplicateJobsBreakTheSpacing` | internal/manager/data/river/jobs_dunning.go:93-140 | two such jobs, both declined, are two failures at one instant, exactly as long as both are stored |
| `CCBillWebhooks.CCBillWebhookService.HandleUpgradeSuccess` | internal/manager/web/webhook/webhook_ccbill.go:375-450 | refuses an amount that is not positive or more than 2% off the new price; otherwise the transaction of an upgrade |
| `CCBillWebhooks.MatchesWithinTwoPercent` | internal/manager/web/webhook/webhook_ccbill.go:417-420 | for a positive price the billed amount matches exactly from 98% to 102% of it |
| `LifecycleOutcomes.UpgradeTakesTheNewCycle` | internal/manager/web/webhook/webhook_ccbill.go:439-451 | an upgrade extends by the cycle of the new price, and lands if and only if the period it gives is not over and no other subscription of the user is active |
| `CCBillWebhooks.CCBillWebhookService.HandleBillingDateChange` | internal/manager/web/webhook/webhook_ccbill.go:603-647 | the period end becomes the announced date |
| `LifecycleOutcomes.BillingDateMovesTheEnd` | internal/manager/web/webhook/webhook_ccbill.go:603-647 | only the period end moves, and no window |
| `CCBillWebhooks.CCBillWebhookService.HandleUserReactivation` | internal/manager/web/webhook/webhook_ccbill.go:777-838 | active again with cancellation fields cleared; no window is granted |
| `LifecycleOutcomes.ReactivationReopensTheRow` | internal/manager/web/webhook/webhook_ccbill.go:777-838 | the cancellation is cleared, a renewal date starts a period now, no window changes; refused exactly when another subscription of the user is active |
| `CCBillWebhooks.CCBillWebhookService.HandleRefund` | internal/manager/web/webhook/webhook_ccbill.go:900-998 | refuses an amount that is not positive; a refund large enough for the price resets, cancels and ends the windows, a small one changes nothing |
| `LifecycleOutcomes.TerminatingRefundEndsNow` | internal/manager/web/webhook/webhook_ccbill.go:948-998 | lands if and only if there is a period end and every open window has started; only a period that has run out is zeroed, and the windows end now |
| `CCBillWebhooks.EndsFromFourFifths` | internal/manager/web/webhook/webhook_ccbill.go:940-946 | a refund ends a subscription with a positive price exactly from 80% of it on, always a free one, never one without a known price |
| `CCBillWebhooks.CCBillWebhookService.HandleChargeback` | internal/manager/web/webhook/webhook_ccbill.go:1196-1303 | refuses an amount that is not positive, reports an unknown subscription as handled, and else resets, cancels, ends and revokes at once |
| `LifecycleOutcomes.ChargebackEndsNow` | internal/manager/web/webhook/webhook_ccbill.go:1196-1303 | the same, with the row ended whether or not its period still runs |
| `Idempotency.Find` | internal/manager/data/repo/idempotency_repo.go:39-48 | the row of an operation and key, none exactly when there is none |
| `Idempotency.IdempotencyService.Insert` | internal/manager/data/repo/idempotency_repo.go:24-33 | the unique (operation, key) refuses a second row |
| `Idempotency.IdempotencyService.Begin` | internal/manager/api/idempotency/idempotency.go:25-56 | blank fields err; otherwise the slot has a row afterwards, and it counts as existing exactly when it was there or a rival inserted it first |
| `Idempotency.IdempotencyService.UpdateStatus` | internal/manager/data/repo/idempotency_repo.go:50-66 | unconditional update of one row; a missing row is an error |
| `Idempotency.IdempotencyService.Complete` | internal/manager/api/idempotency/idempotency.go:58-60 | the row reads success with its result |
| `Idempotency.IdempotencyService.Fail` | internal/manager/api/idempotency/idempotency.go:62-68 | the row reads failed with the failure |
| `IdempotencyRuns.GrantedAndChargedOnce` | internal/manager/api/idempotency/idempotency.go:25-56 | in every interleaving of requests, abandoned anywhere, at most one Begin per slot reports a new row, and at most one charge is made under it |
| `IdempotencyRuns.RefusedOnlyAfterAGrant` | internal/manager/api/idempotency/idempotency.go:31-53 | a request is refused only after another was granted the same slot |
| `IdempotencyRuns.SuccessMeansCharged` | internal/manager/api/subscription/subscription.go:314-337 | a record reads success only when its charge went through |
| `IdempotencyRuns.TakenSlotIsRefusedForever` | internal/manager/api/idempotency/idempotency.go:31-53 | a slot whose request has charged, failed or gone away is, whatever follows, never granted or charged again; a new request is refused |
| `IdempotencyRuns.ChargeableExactlyWhen` | internal/manager/api/idempotency/idempotency.go:31-53 | a slot can still be charged if and only if it has no row, or a request that was granted it has yet to charge |
| `IdempotencyRuns.StepKeepsInv` | internal/manager/api/idempotency/idempotency.go:25-56 | every single step keeps the invariant behind these results |
| `IdempotencyRuns.BeginIsTwoSteps` | internal/manager/api/idempotency/idempotency.go:31-56 | Begin with nothing in between is its lookup step followed by its insert step |
| `Subscribe.SlotIsClean` | internal/manager/api/subscription/subscription.go:422-432 | the key built for a subscription is not blank and trimming does not change it |
| `Subscribe.SameKeyIffSamePurchase` | internal/manager/api/subscription/subscription.go:422-432 | for requests whose method passed the UUID check, two keys are equal if and only if user, price, token and method agree, blank read as none, whatever the tokens |
| `Subscribe.ChargeableMethodsParse` | internal/manager/api/subscription/subscription.go:184-193 | only requests whose saved payment method is blank or parses as a UUID get as far as their key |
| `Subscribe.NMISubscriber.Subscribe` | internal/manager/api/subscription/subscription.go:184-337 | a request with neither token nor method, or whose method does not parse, is not found, or needs a token it lacks, is refused without a charge or a row; any other is charged if and only if its slot was free and the vaulting went through |
| `Subscribe.VaultUnlessRefused` | internal/manager/api/subscription/subscription.go:184-213 | there is a vault id to go on with exactly for requests that are not refused |
| `Subscribe.SubscribeIsFourSteps` | internal/manager/api/subscription/subscription.go:215-337 | a request run to its end is four steps of the machine; its record reads success if and only if the charge went through and the response could be stored |
| `Subscribe.PurchaseIsChargedOnce` | internal/manager/api/subscription/subscription.go:215-226 | in every interleaving one purchase (user, price, token, method) is charged at most once |
| `Subscribe.RefusedOnlyForTheSamePurchase` | internal/manager/api/subscription/subscription.go:222-224 | a refusal means that the same purchase was granted before, never another one |
| `Deduplication.DeduplicationService.ProcessWebhook` | internal/manager/api/deduplication/deduplication_service.go:28-88 | the handler runs unless success is recorded; its error is passed on; the record changes only when it could be updated |
| `Deduplication.HandlerRunsUntilSuccess` | internal/manager/api/deduplication/deduplication_service.go:38-79 | in any serial run the handler runs for a delivery exactly when its id is blank or no earlier delivery of the same event type and id succeeded and was recorded |
| `Deduplication.SlotsAgreeIffSameEvent` | internal/manager/api/deduplication/deduplication_service.go:38-42 | two deliveries share a record if and only if their trimmed ids agree and are not blank, and their types agree up to trailing space |
| `Deduplication.SuccessIsRemembered` | internal/manager/api/deduplication/deduplication_service.go:38-79 | success is recorded exactly when some delivery succeeded and could be recorded |
| `Deduplication.DeliveryIsRecorded` | internal/manager/api/deduplication/deduplication_service.go:57-79 | a recorded delivery leaves a record of how its handler ended: its payload, or its error |
| `NMIWebhooks.NMIWebhookService.HandleTransactionSaleSuccess` | internal/manager/web/webhook/webhook_nmi.go:428-572 | a recurring sale creates or renews the membership and then records the payment, with each error path |
| `NMIWebhooks.NMIWebhookService.HandleTransactionSaleFailure` | internal/manager/web/webhook/webhook_nmi.go:627-705 | a failed recurring sale counts against the subscription if its failure is stored; unknown ones are ignored |
| `NMISales.OtherFailedSalesAreIgnored` | internal/manager/web/webhook/webhook_nmi.go:627-693 | a failed sale that is not a recurring one of a known subscription is ignored, one without a reference refused |
| `NMISales.OtherSalesChangeNothing` | internal/manager/web/webhook/webhook_nmi.go:428-470 | a sale that is not a recurring one of a known subscription changes nothing |
| `NMISales.FirstSaleGivesAccess` | internal/manager/web/webhook/webhook_nmi.go:471-490 | after a handled first sale, in every reachable state, the user is entitled to all that the product grants, at every time from now on |
| `NMISales.LaterSaleExtends` | internal/manager/web/webhook/webhook_nmi.go:471-501 | a sale of a subscription that is not pending extends it by one cycle if and only if nothing refuses the renewal, and else changes nothing |
| `NMISales.HandledSaleAddsItsPayment` | internal/manager/web/webhook/webhook_nmi.go:503-568 | a handled sale adds one row with the user and price of the subscription, the trimmed transaction id (that of the details when blank) and the cents of the amount (the price amount standing in), and none exactly when the id is blank or recorded or the amount not positive or too large |
| `NMIWebhooks.FailedSaleIsCountedExactlyWhen` | internal/manager/web/webhook/webhook_nmi.go:694-705 | a failed sale is counted if and only if its failure is stored; one that is not is still reported as handled, unless the driver reports the rollback |
| `NMIWebhooks.LostFailureIsNotRedelivered` | internal/manager/web/webhook/webhook_nmi.go:226-240 | a failure that is rolled back unreported is lost for good: delivering its event again changes nothing |
| `NMIWebhooks.NMIWebhookService.RecordPayment` | internal/manager/web/webhook/webhook_nmi.go:503-568 | a payment row is added only for a new transaction id and a positive amount, the price amount standing in for one that does not parse |
| `NMIWebhooks.OnePaymentPerTransaction` | internal/manager/web/webhook/webhook_nmi.go:503-568 | over any run, a transaction has at most one payment row |
| `NMIWebhooks.HandledSaleIsRecorded` | internal/manager/web/webhook/webhook_nmi.go:503-568 | after a handled sale with a transaction id and a positive amount its payment is there, if and only if it was before or the amount fits the column |
| `NMIWebhooks.RedeliveryChangesNothing` | internal/manager/web/webhook/webhook_nmi.go:226-240 | once a delivery was handled and recorded, and after whatever happens next, any delivery of that event changes no row, membership or payment |
| `NMIRenewals.OneTransactionRenewsTwice` | internal/manager/web/webhook/webhook_nmi.go:471-501 | the failing case: one sale handled twice extends the period by two cycles for one payment |
| `NMIRenewals.OneCycleExactlyWhen` | internal/manager/web/webhook/webhook_nmi.go:471-501 | however often one sale is delivered, and as whatever events, it extends the period by exactly one cycle if and only if all later deliveries are of the first one's event, which has an id, and whose handling succeeded and was recorded |
| `NMIRenewals.FirstSaleGivesOneCycleExactlyWhen` | internal/manager/web/webhook/webhook_nmi.go:471-501 | the same for the sale that starts a membership: one cycle from its delivery on, if and only if every further delivery repeats the first one's event |
| `NMIRenewals.DeliveryExtendsExactlyWhen` | internal/manager/web/webhook/webhook_nmi.go:471-501 | with deliveries of any events, membership changes and ledger calls before it, a delivery extends the period by the cycle of the time if and only if no earlier delivery of its event was handled with success and recorded |
| `RateLimit.KeysAreInjective` | internal/manager/web/middleware/ratelimit.go:112-113 | two clients, or two buckets, never share an in-memory counter |
| `RateLimit.RedisTextsAreInjective` | internal/manager/web/middleware/ratelimit.go:143-144 | the texts of two Redis counters are equal if and only if bucket, IP and minute are, colons in the IP or not |
| `RateLimit.BucketsByRoute` | internal/manager/web/middleware/ratelimit.go:183-195 | webhooks and payment methods by path alone, other subscription paths only when posted to |
| `RateLimit.RateLimitStore.Allow` | internal/manager/web/middleware/ratelimit.go:99-132 | one request on the in-memory windows: admitted exactly when its counter is below the configured limit, or below 60 for a limit that is not positive; counters, remaining and reset |
| `RateLimit.RedisLimiter.Allow` | internal/manager/web/middleware/ratelimit.go:135-159 | one request on the Redis minute windows, with EXPIRE late or lost: admitted exactly when its counter is below the configured limit, or 60 |
| `RateLimitHistories.SpanBound` | internal/manager/web/middleware/ratelimit.go:99-132 | windows that admit the threshold each, any three spread over more than 60 seconds, admit at most twice the threshold in any 60 seconds |
| `RateLimitHistories.MemoryLimits` | internal/manager/web/middleware/ratelimit.go:99-132 | for every history a bucket and IP gets at most the configured limit per window and one less than twice it in any 60 seconds; 60 stands for a limit that is not positive |
| `RateLimitHistories.MemoryAdmitsUpToThreshold` | internal/manager/web/middleware/ratelimit.go:99-132 | while a window of the client runs, a request is admitted exactly when it has admitted fewer than the configured limit; otherwise it is admitted and opens a window of 60 seconds |
| `RateLimitHistories.RedisLimits` | internal/manager/web/middleware/ratelimit.go:135-159 | at most the configured limit per minute and twice it in any 60 seconds, however late or often the EXPIRE is lost |
| `RateLimitHistories.RedisAdmitsUpToThreshold` | internal/manager/web/middleware/ratelimit.go:135-159 | a request is admitted exactly when its clock minute has admitted fewer than the configured limit, whatever became of the EXPIREs |
| `RateLimitHistories.CounterSurvivesItsWindow` | internal/manager/web/middleware/ratelimit.go:143-151 | the TTL set on the first increment cannot expire a counter before its minute ends |
| `RateLimitMiddleware.RateLimiter.Handle` | internal/manager/web/middleware/ratelimit.go:38-96 | one store decides each request of a limited bucket, by the configured limit: Redis, or the in-memory one when Redis errs, having counted the request or not |
| `RateLimitMiddleware.FourTimesTheThreshold` | internal/manager/web/middleware/ratelimit.go:38-96 | for every history and every pattern of Redis errors a bucket and IP is admitted at most one less than four times its configured limit in any 60 seconds |
| `RateLimitMiddleware.BoundIsReached` | internal/manager/web/middleware/ratelimit.go:38-96 | for every limit there is a history that admits exactly so many |
| `Spool.SpoolDir.List` | pkg/spool/spool.go:64-88 | the files in name order, cut at a positive limit |
| `Spool.WithoutTakesOne` | pkg/spool/spool.go:102-109 | removal takes exactly the files of that name |
| `Spool.SpoolDir.EnforceCapacity` | pkg/spool/spool.go:113-178 | the files left and the verdict |
| `Spool.SpoolDir.Enqueue` | pkg/spool/spool.go:42-61 | the directory after writing, trimming and renaming, and whether it succeeded |
| `Spool.EvictsShortestPrefix` | pkg/spool/spool.go:113-178 | the files deleted are the shortest oldest-first prefix that meets both targets, all when none does, none when the caps are kept |
| `Spool.NilMeansItFits` | pkg/spool/spool.go:113-178 | a nil result means that what is left plus the new record fits both caps |
| `Spool.TooBigLeavesNothing` | pkg/spool/spool.go:164-176 | a record over a cap is refused after everything was evicted |
| `Spool.EnqueueSucceedsIffRoom` | pkg/spool/spool.go:42-61 | success if and only if the new bytes fit twice; no file goes while all fit, and else no more than the targets ask for; a failure leaves the spool empty |
| `Spool.RunsStayWithinCaps` | pkg/spool/spool.go:42-61 | every sequence of Enqueue and Remove stays within both caps, in age order |
| `MemoryCache.Cache.Get` | pkg/cache/memory_cache.go:31-47 | the answer of a timed map; an expired item is dropped |
| `MemoryCache.Cache.Set` | pkg/cache/memory_cache.go:49-68 | the item with its expiration; a ttl of zero or less never expires |
| `MemoryCache.Cache.Delete` | pkg/cache/memory_cache.go:70-75 | the key is gone and nothing else |
| `MemoryCache.Cache.Clear` | pkg/cache/memory_cache.go:77-82 | nothing is left |
| `MemoryCache.Cache.CleanupExpired` | pkg/cache/memory_cache.go:90-105 | visiting keys in any order, exactly the expired items go |
| `MemoryCacheRuns.CacheIsTimedMap` | pkg/cache/memory_cache.go:31-82 | after any sequence of calls the cache answers every Get, now or later, as a map that forgets nothing by itself |
| `MemoryCacheRuns.SetIsAnsweredForItsTtl` | pkg/cache/memory_cache.go:31-68 | what is set is answered, whatever calls leave the key alone, until exactly its ttl has passed, and for good without a positive one |
| `MemoryCacheRuns.ForgottenIsAbsent` | pkg/cache/memory_cache.go:70-82 | what was never set, or deleted or cleared since, is not answered |
| `MemoryCacheRuns.CleanupIsInvisible` | pkg/cache/memory_cache.go:90-105 | a cleanup pass changes no answer, now or later |
| `MemoryCacheRuns.AnswersAreFresh` | pkg/cache/memory_cache.go:31-47 | in every interleaving an answer is the item last set when the Get read it, not expired when it checked |
| `MemoryCacheRuns.OnlyLateDeleteLoses` | pkg/cache/memory_cache.go:41-44 | no step loses a live item except the late delete of a Get that finds one set meanwhile, which always does |
| `MemoryCacheRuns.LateDeleteLosesSet` | pkg/cache/memory_cache.go:41-44 | for any key and values there is a run in which a Set is lost that way |
| `Solana.EvaluatesIffQualifies` | internal/manager/api/solana/solana_transaction.go:418-518 | an instruction yields a match exactly when it is a transfer of enough, from the payer, to a candidate, and, for a token transfer only, in an allowed mint; the match points at its destination |
| `Solana.BestIsFirstGreatest` | internal/manager/api/solana/solana_transaction.go:520-531 | none when nothing qualifies, else the first of those with the greatest amount |
| `Solana.OrderDoesNotMatter` | internal/manager/api/solana/solana_transaction.go:348-416 | two transactions with the same account keys and permuted instructions have a match or none alike, of the same amount |
| `Solana.FindTransferMatch` | internal/manager/api/solana/solana_transaction.go:348-416 | the scan returns that best match; no candidates, or one that is no key, is an error |
| `Solana.FirstOf` | internal/manager/api/solana/solana_transaction.go:638-675 | the first token balance of an account, none exactly when there is none |
| `Solana.MintForAccount` | internal/manager/api/solana/solana_transaction.go:540-550 | the mint of the first token balance after the transaction, blank without one |
| `Solana.ParseInvertsDecimal` | internal/manager/api/solana/solana_transaction.go:651-655 | parsing gives back every number below 2^64 from its decimal text and refuses every other |
| `Solana.TokenBalanceDelta` | internal/manager/api/solana/solana_transaction.go:638-675 | the amounts after and before, or an error when an entry is missing or does not parse |
| `Solana.VerifyBalanceChanges` | internal/manager/api/solana/solana_transaction.go:613-636 | succeeds exactly when the lamports or the token balance rose by the amount, in unbounded integers: the unsigned subtractions do not wrap |
| `Solana.MessageContainsKey` | internal/manager/api/solana/solana_transaction.go:568-587 | finds exactly the keys of the message and of its loaded addresses |
| `Solana.FindAccountIndex` | internal/manager/api/solana/solana_transaction.go:589-611 | the first position of a key among all of them, or -1 |
| `Solana.ValidateTransactionContent` | internal/manager/api/solana/solana_transaction.go:269-318 | accepts if and only if payer, reference and candidates are in order and the account of the best match rose; errors by kind; the next four rows say which transfers that means |
| `Solana.TokenPaymentIsAccepted` | internal/manager/api/solana/solana_transaction.go:269-318 | a checked transfer of the expected mint and amount by the payer into the token account derived for the recipient, whose balance texts rise by it, is accepted while nothing else moves as much |
| `Solana.PlainTokenPaymentIsAccepted` | internal/manager/api/solana/solana_transaction.go:452-494 | so is a plain token transfer into that account, of the mint its balance entries name |
| `Solana.NativePaymentIsAccepted` | internal/manager/api/solana/solana_transaction.go:418-450 | so is a system transfer to the recipient, whose lamports rise |
| `Solana.AcceptanceNamesTheRecipient` | internal/manager/api/solana/solana_transaction.go:269-318 | conversely an acceptance has a transfer of enough, by the payer, in an allowed mint, into the recipient or, for a mint that is not blank, its derived token account and no other, which rose |
| `Solana.AcceptanceMeansPaid` | internal/manager/api/solana/solana_transaction.go:269-318 | an acceptance implies a qualifying transfer to a candidate, none greater, and a rise of the lamports or of the tokens on that very account |
| `Solana.AcceptanceMeansTokensExactlyWhen` | internal/manager/api/solana/solana_transaction.go:613-636 | every acceptance, whatever the token amounts, comes with a rise of the token balance if and only if the lamports of the destination did not rise by as much; it is then a payment in tokens exactly when the chosen transfer is one |
| `Solana.LamportsPassForTokens` | internal/manager/api/solana/solana_transaction.go:418-450 | for every mint: a native transfer of as many lamports is accepted for a payment due in that token |
| `Solana.MintsMatchIgnoringCase` | internal/manager/api/solana/solana_transaction.go:556-566 | mints match if and only if they agree up to case, although base-58 text is case-sensitive |
| `Payments.PaymentService.Create` | internal/manager/api/payment/stores/paymentdb/paymentdb.go:24-37 | a row, rounded to the cent, is appended if and only if no row has its processor and transaction id and the amount fits the column |
| `Payments.PaymentService.Refund` | internal/manager/api/payment/payment.go:74-119 | a refund that passes the checks appends the negative cents under the user, price and processor of its payment, any other changes nothing |
| `Payments.PaymentService.GetRefundTotalByPaymentID` | internal/manager/api/payment/stores/paymentdb/paymentdb.go:94-104 | the absolute sum of the rows that refund a payment |
| `Payments.PaymentService.GetByTransactionID` | internal/manager/api/payment/stores/paymentdb/paymentdb.go:55-61 | a row with this processor and transaction id, none exactly when no row has them |
| `Payments.AppendOnly` | internal/manager/api/payment/payment.go:64-119 | what a run has written stays as it was written; updates and deletions are always refused |
| `Payments.OnlyPaymentsAreRefunded` | internal/manager/api/payment/payment.go:74-119 | only positive payments are refunded, never a refund, each by no more than its amount |
| `Payments.RefundsAreBounded` | internal/manager/api/payment/payment.go:86-97 | however many refunds are made, their total in the ledger never exceeds the amount of the payment: the tolerance of 0.0001 is rounded off |
| `Payments.RefundIsAcceptedWhen` | internal/manager/api/payment/payment.go:74-119 | in every reachable state, the exact condition under which a refund is accepted |
| `Payments.RestCanBeRefunded` | internal/manager/api/payment/payment.go:86-97 | in every reachable state, what is left of a payment can be refunded at one stroke, and then the total is exactly its amount |
| `Payments.CentsAreNearest` | internal/manager/data/migrations/postgres/001_setup_billing_tables.up.sql:235 | a stored amount is within half a cent of the one given, and whole cents are stored as they are |
| `CCBillAliases.ShortenedDigest` | internal/manager/api/cc-bill-alias/ccbill_alias.go:81-94 | a candidate is 16 lower-case letters and digits, unchanged by trimming |
| `CCBillAliases.AttemptsHashDifferentTexts` | internal/manager/api/cc-bill-alias/ccbill_alias.go:81-94 | the first candidate hashes the user id alone, and no two attempts for a user hash the same text |
| `CCBillAliases.FindUser` | internal/manager/data/repo/ccbill_username_alias.go:24-30 | the row of a user, none exactly when there is none |
| `CCBillAliases.FindAlias` | internal/manager/data/repo/ccbill_username_alias.go:32-38 | the row of an alias, none exactly when there is none |
| `CCBillAliases.CCBillAliasService.Insert` | internal/manager/data/repo/ccbill_username_alias.go:40-57 | refused when the alias or the user is there already |
| `CCBillAliases.CCBillAliasService.TryCandidates` | internal/manager/api/cc-bill-alias/ccbill_alias.go:43-65 | takes the first free candidate of the five, unless the user turns out to have an alias |
| `CCBillAliases.CCBillAliasService.GetOrCreate` | internal/manager/api/cc-bill-alias/ccbill_alias.go:31-66 | the answer and the table afterwards, with another call for the same user coming in between or not |
| `CCBillAliases.CCBillAliasService.Resolve` | internal/manager/api/cc-bill-alias/ccbill_alias.go:68-79 | the user of a trimmed alias, an error when it is blank or unknown |
| `CCBillAliasRuns.AliasesAreStableAndInjective` | internal/manager/api/cc-bill-alias/ccbill_alias.go:31-66 | in every interleaving two answers have the same alias exactly when they are for the same user |
| `CCBillAliasRuns.AnswersResolveBack` | internal/manager/api/cc-bill-alias/ccbill_alias.go:68-79 | an alias that was returned resolves to its user |
| `CCBillAliasRuns.IssuedAliasesResolve` | internal/manager/api/cc-bill-alias/ccbill_alias.go:81-94 | with the generator in use, every alias that was returned does |
| `CCBillAliasRuns.RowsAreCandidates` | internal/manager/api/cc-bill-alias/ccbill_alias.go:43-65 | every alias in the table is a candidate of its own user |
| `CCBillAliasRuns.ExhaustionMeansAllTaken` | internal/manager/api/cc-bill-alias/ccbill_alias.go:43-65 | exhaustion is reported only when other users have all five candidates |

## Left out

- HTTP handlers and clients, SQL text, Redis, River, SendGrid and ClickHouse: their results are parameters. Notifications and billing events are left out.
- Faults of connections and disks that the code only logs, such as a failing os.Remove: these steps are taken to succeed. Refusals by the schema are modelled: unique indexes, the width of amounts, and ranges that would end before they start. A fault that returns an error is a caller that stops, or an explicit parameter (`recorded`, `lookupFails`).
- Finding a subscription by processor, provider and processor id, and the normalisation of provider names: a subscription is its position in the table, and UUIDs are positions.
- SHA-256, base 32, base 58 and the derivation of token accounts: the hash, the test whether a text is a key, and the derived account are arbitrary functions. Accounts reached through lookup tables occur only in the reference check.
- Floating point: amounts the program computes with are real numbers, rounded to the cent where they are stored; the low watermark of the spool is any target within the cap.
- Status overrides by administrators, which go around the lifecycle.
- Additions of time values are unbounded; only durations wrap. Purchases of more than 106751 days, whose length wraps, are not covered by `EntitlementRuns` (`DaysDurationExact` is the exact bound). Go's zero time is the number zero and no clock reading equals it.
- RateLimit.RedisLimiter.Allow: the increment falls in the minute of the clock reading, on one clock; the decimal rendering of the minute in the key is a number.
- Strings are ASCII for trimming and case, and EqualFold is equality.
- Spool.SpoolDir.Enqueue: the time stamps of file names are strictly increasing and stat does not fail; the record's content and its parsing are left out.
- Deduplication.DeduplicationService.ProcessWebhook: one delivery at a time; the record is not a lock, so nothing is claimed about concurrent deliveries of one event.
- Subscribe.NMISubscriber.Subscribe: the lookup of price and provider and the validation of a saved payment method are parameters; the clean-up of a vault after a failed charge and the pending subscription row that follows a charge are left out, and so is a program without an idempotency service. User ids are UUIDs, so they hold no colon; two spellings of one method's UUID count as two methods, as in the key.
- WebhookEvents.WebhookProcessor.RetryBatch: the batch is given as any result the retry query may return; the dispatcher's answer is a function of the event.
- DunningTiming.FailuresAreSpaced: the claim is for the loop whose sweeps wait for the attempts before and in which only the first failure comes from elsewhere; `SpacedExactlyWhenPunctual` is the exact condition for all runs.
- MembershipAccess.LiveSubscribersAreEntitled: the claim is for runs in which Renew, Fail, Reactivate and Upgrade act on live subscriptions; `CoverageIsKeptExactlyWhen` and `PaidButNotEntitled` say what is lost otherwise.
- NMIWebhooks.NMIWebhookService.HandleTransactionSaleSuccess: parsing of the notification body and the currency are left out. In the runs every event type but the two of sales is unsupported; the other NMI notifications only call the lifecycle operations and would add only easy members.
- CCBillWebhooks.CCBillWebhookService.HandleUpgradeSuccess: the amount of the new price is a parameter. A price without a billing cycle makes the program panic; here it is an error. New-sale, renewal, cancellation and expiry notifications only call the lifecycle operations.
- Solana.ValidateTransactionContent: fetching and confirming the transaction, and the payment intents, are left out.
- CCBillAliases.ShortenedDigest: the fallback for digests shorter than four characters cannot be reached and is left out.
- Pagination, request and response types, loading of configuration, product and price administration.
- Lifecycle.SubscriptionLifecycleService.Fail: when a logged refusal has spoilt the transaction, committing it rolls it back; whether the database driver reports that is a parameter of NMI failures, and elsewhere the result says only whether the change is stored. Times are kept to the nanosecond, those of the database to the microsecond.
