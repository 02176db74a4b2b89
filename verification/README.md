# Charter123: a verified model of its payment, limiting and pricing logic

This project models the parts of the Charter123 booking backend whose promises span several
functions, and proves those promises in Dafny. `dafny verify dfyconfig.toml` checks all of it.

**Payments.** A booking is paid through a provider's Checkout session. A local database, a
deduplication store, a payment provider with a ledger of its own and an airline are changed by
independent steps: start a session, customer pays, session expires, webhook delivered late or twice
or out of order, partial staff refund, modification, cancellation.

- `SessionStateMachine`, `Idempotency`, `PaymentTables` and `PaymentProvider` hold the parts. Where
  the program updates objects in place there is a class, proved to do what functions on values say.
  `MockPayments` drives the mock provider by itself.
- `PaymentSteps` gives each service call as a function, split at its provider call into a plan and a
  finish. `PaymentServices` holds the services as imperative methods proved equal to those functions.
- `PaymentRuns` and `PaymentTheorems` reason over every serial run with any provider that echoes the
  amount it was asked to refund, whatever status it answers and whenever it refuses. On top of them,
  `PaymentRetries` is about a request sent again at any later time, `PaymentPrices` about what a
  payment charges, `RejectedRefunds`, `PaymentCancellation` and `CancelledBookings` about what
  refunds and cancellations leave behind.
- `RememberedKeys`, `ServiceAnswers`, `RefundRecords` and `BookingStatuses` say of every operation when it
  is carried out, what it answers, the one reason of each error, and what the store, the refund columns
  and the booking statuses therefore are after every run.
- `TwoLedgers` adds the mock provider and the customers, and shows that each of its runs is one of
  those runs; `BothProviders` adds the airline's own record of every booking instead.
- `WebhookConfluence` is about delivery order; `ExactlyOnce`, `StuckKeys` and `RefundsOnce` about any number of
  threads whose calls, retries and failing commits are interleaved with customers and webhooks.

**Limits.** `RateLimiter` has the fixed-window counter and the exponential lockout with bounds over
traces, `TtlStore` the store with expiry that must not be told apart from the plain one, and
`Verification` the booking-verification sessions.

**The mock airline and smaller companions.** `AirlineMoney`, `Airline` and `AirlineBookings` have the two
price formulas, cancellation and the booking operations; `FlightIds` a printer and its parser; `Calendar`
spoken dates; `Analytics` revenue summaries; `VapiUpserts` the upsert planner of the setup script.

Money is integer cents, times are exact reals, "latest payment" is creation order, and a session or
booking reference is the position at which its provider created it, because the digests that produce
them are injective. Random draws (quote ids, references, tokens, passenger ids) are inputs.

These results say where the program does less, or other, than its documentation suggests:

- A refund that the provider answers FAILED or CANCELED is still added to `refunded_amount`. The
  payment's column equals what the provider took on exactly when none of its refunds was rejected
  (`PaymentTheorems.LedgersAgreeUnlessRejected`, with a run that shows the difference). After a
  rejected full refund no later one gets through, and cancelling the booking marks it REFUNDED
  although nothing was refunded (`RejectedRefunds`).
- A staff refund sent again under its key is not always answered with the stored result: the checks
  on the booking and on what is left come first (`PaymentRetries.RetriedRefundMovesNoMoney`, with a
  run in which the retry is rejected). A session request that was answered with another request's
  open payment is not remembered at all, and may open a second one later
  (`PaymentRetries.ForgottenRequestOpensAnother`).
- A cancellation under a key that has cancelled another booking is reported as done and does nothing
  (`BookingStatuses.CancellationIsAnswered`, with a run in `OneKeyForTwoCancellations`).
- A refund whose commit fails after the provider has made it leaves its key in progress for ever
  (`StuckKeys.StaysInProgressExactlyWhen`, with a run in `RefundsOnce.RefundIsLeftBehind`).
- A webhook that comes before its payment row is committed is consumed as unmatched, and its redelivery
  is a duplicate: the payment stays pending unless another event reports success
  (`WebhookConfluence.NewPaymentSucceedsExactlyWhen`, with a run in `EarlyEventIsLost`).
- The airline answers a change under a key it has seen with the booking it saw it for. One key for changes
  of two bookings gives the second the first one's price in the local database, and no other change
  makes the two prices come apart (`BothProviders.PricesAgreeExactlyWhen`).
- A lock longer than a day is evicted while it is active (`TtlStore.NeverEvictedExactlyWhen`).
- Cancelling a booking does not close its open session: a customer who then pays leaves it CANCELLED
  and PAID (`CancelledBookings.CancelledIsPaidExactlyWhen`).
- A fixed window of limit L lets through up to 2L - 1 calls in an interval as long as the window, and
  that many can occur (`RateLimiter.LessThanTwiceTheLimit`, `RateLimiter.BoundIsReached`).
- A quote equals the later one-shot price exactly when what children and infants save rounds away
  (`AirlineMoney.QuoteIsRepriceExactlyWhen`), so adding and removing a passenger can change a total.
- Premium economy and airport codes with an underscore are the flight ids that do not parse
  (`FlightIds.RoundTripsExactlyWhen`).

## Model

| member | source | states |
|---|---|---|
| PaymentTables.Latest | apps/api/app/repositories/payment_repository.py:46-48 | the newest payment of a booking, and none exactly when it has none |
| PaymentTables.Open | apps/api/app/repositories/payment_repository.py:31-44 | the newest payment of a booking that is not terminal; none when all are terminal |
| PaymentTables.BySession | apps/api/app/repositories/payment_repository.py:28-29 | a payment with this session id, and none exactly when there is none |
| PaymentTables.Database.AddPayment | apps/api/app/repositories/payment_repository.py:17-20 | a row is stored exactly when neither its idempotency key nor its session id is taken; the committed rows do not change |
| Idempotency.Begin | apps/api/app/core/idempotency.py:63-69 | None exactly for a key not seen before, which is then registered; other entries are kept |
| Idempotency.InMemoryIdempotencyStore.BeginKey | apps/api/app/core/idempotency.py:63-69 | the in-place store does what `Begin` says |
| Idempotency.InMemoryIdempotencyStore.Complete | apps/api/app/core/idempotency.py:71-73 | the entry of this key, and no other, becomes completed with the result |
| Idempotency.InMemoryIdempotencyStore.Fail | apps/api/app/core/idempotency.py:75-77 | this key, and no other, is forgotten |
| PaymentProvider.MockPaymentProvider.CreateCheckoutSession | apps/api/app/providers/payments/mock.py:89-122 | a new key opens exactly one unpaid session; a known key returns its session and changes nothing |
| PaymentProvider.SessionOfIntent | apps/api/app/providers/payments/mock.py:152-154 | the first session carrying a payment intent, and none exactly when there is none |
| PaymentProvider.MockPaymentProvider.FindByIntent | apps/api/app/providers/payments/mock.py:152-154 | the search loop finds the first session carrying the payment intent |
| PaymentProvider.MockPaymentProvider.RefundPayment | apps/api/app/providers/payments/mock.py:135-172 | replay of a known key, the three refusals, and otherwise the session's ledger and the refund record move together |
| PaymentProvider.MockPaymentProvider.SimulateCompletion | apps/api/app/providers/payments/mock.py:195-200 | completion, capture and intent of one session |
| PaymentProvider.MockPaymentProvider.SimulateExpiry | apps/api/app/providers/payments/mock.py:202-205 | expiry of one session |
| MockPayments.SessionIsOpened | apps/api/app/providers/payments/mock.py:89-122 | a new key opens one session: open, uncaptured, without an intent or a refund |
| MockPayments.RefundIsAnswered | apps/api/app/providers/payments/mock.py:135-172 | under a new key a refund is made exactly when the first session with the intent is captured and covers it, and is then added to that session alone |
| MockPayments.SimulationsChangeOneSession | apps/api/app/providers/payments/mock.py:195-205 | completion and expiry change those columns of one session and nothing else |
| MockPayments.NeverRefundsMoreThanTheAmount | apps/api/app/providers/payments/mock.py:157-161 | over any calls with any arguments the mock never refunds more than a session's amount |
| MockPayments.KeysAreForEver | apps/api/app/providers/payments/mock.py:104-149 | over any calls a used key gives the same session and the same refund for ever |
| SessionStateMachine.TransitionsAre | apps/api/app/core/payments/state_machine.py:64-77 | pending can become anything else, processing only a success or a failure, and terminal are exactly the statuses that lead nowhere |
| PaymentServices.PaymentService.CreatePaymentSession | apps/api/app/services/payment_service.py:121-237 | the call in place, with its guards in order, rollback and store updates, is `CreateOnMock`; nothing stays uncommitted |
| PaymentServices.PaymentService.ApplyRefundOutcome | apps/api/app/services/payment_service.py:275-346 | the refund columns and the booking's status change as `ApplyRefund` says, uncommitted |
| PaymentServices.PaymentService.RefundPayment | apps/api/app/services/payment_service.py:348-419 | the staff refund in place is `RefundOnMock`, whatever the mock answers |
| PaymentServices.PaymentService.HandleWebhookEvent | apps/api/app/services/payment_service.py:441-502 | one delivery in place is `Webhook`: duplicates, irrelevant types, unknown sessions, no transition and transition |
| PaymentServices.CancellationService.Cancel | apps/api/app/services/cancellation_service.py:50-150 | the cancellation in place is `CancelOnMock` |
| PaymentServices.CancellationService.CloseOutPayment | apps/api/app/services/cancellation_service.py:84-140 | the refund branch: capped at what is left, skipped at nothing, never raising |
| PaymentServices.BookingService.ModifyBooking | apps/api/app/services/booking_service.py:187-239 | status and price change as `Modify` says, for any store; a refused change leaves the database as it was |
| PaymentRuns.PendingBookingHasOpenPayment | apps/api/app/services/payment_service.py:147-152 | a pending booking has an open payment, its latest: the "data drifted" fall-through cannot happen |
| PaymentRuns.StartIsAdmissible | apps/api/app/services/payment_service.py:129-183 | a session reaches the provider only for a booking whose latest payment is dead or absent, at the booking's price |
| PaymentRuns.RefundIsAdmissible | apps/api/app/services/payment_service.py:354-393 | a refund reaches the provider only for a positive amount left on a succeeded latest payment |
| PaymentRuns.CloseOutIsAdmissible | apps/api/app/services/cancellation_service.py:84-119 | so does the refund of a cancellation; otherwise the payment is closed out for nothing or left alone |
| PaymentRuns.NextKeepsValid | apps/api/app/services/payment_service.py:129-502 | every step keeps the invariant over tables and store, and undoes nothing that is final |
| PaymentRuns.RunKeepsValid | apps/api/app/services/payment_service.py:129-502 | so does every run |
| PaymentRuns.NextKeepsEntries | apps/api/app/core/idempotency.py:63-77 | no step replaces or forgets a completed entry of the store |
| PaymentRuns.RunKeepsEntries | apps/api/app/core/idempotency.py:63-77 | nor does any run |
| PaymentRuns.SucceededStays | apps/api/app/core/payments/state_machine.py:64-71 | a succeeded payment stays its booking's latest, with its amount and intent |
| PaymentTheorems.OneOpenPayment | apps/api/app/services/payment_service.py:135-152 | in every run: at most one non-terminal payment per booking, its latest; the booking is pending, failed, paid or refunded, or unpaid exactly when its latest payment is pending or processing, failed, succeeded, or absent, expired or canceled |
| PaymentTheorems.FailedPaymentLeavesOpen | apps/api/app/core/payments/state_machine.py:98-105 | a concrete run in which a payment fails, its booking shows it, and a new session is started |
| PaymentTheorems.NeverPaidTwice | apps/api/app/services/payment_service.py:135-152 | a booking has at most one succeeded payment, which stays succeeded and after which none is added |
| PaymentTheorems.RefundedIsFrozen | apps/api/app/services/payment_service.py:357-364 | once refunded, a booking's status and all its payments never change again |
| PaymentTheorems.RefundsAreBounded | apps/api/app/services/payment_service.py:366-373 | for any provider: refunded amounts only grow and never exceed the amount paid, and a refunded payment stays SUCCEEDED |
| PaymentTheorems.StepCredits | apps/api/app/services/payment_service.py:311-323 | every step credits exactly the amount it asked the provider for and got an answer on, whatever the status |
| PaymentTheorems.LedgersAgreeUnlessRejected | apps/api/app/services/payment_service.py:320-334 | the local column is at least what the provider took on, and equal exactly when no refund of the payment came back FAILED or CANCELED |
| PaymentTheorems.RejectedRefundIsStillCounted | apps/api/app/services/payment_service.py:402-416 | a concrete run in which a FAILED refund is counted |
| PaymentTheorems.RefundedExactlyWhen | apps/api/app/services/payment_service.py:336-339 | in a reached state a step makes a booking REFUNDED exactly when it closes the payment out with a SUCCEEDED answer or with nothing to send |
| PaymentRetries.SessionRequestReturns | apps/api/app/services/payment_service.py:147-237 | what is returned is the payment under the request's own key or the booking's open one; one made now is the only new row, pending, unrefunded, for the provider's session and intent, at the booking's price |
| PaymentRetries.SessionIsSentExactlyWhen | apps/api/app/services/payment_service.py:129-175 | a request reaches the provider exactly for a booking open to a session under a key not seen before; otherwise it changes nothing |
| PaymentRetries.StoredEntryDecides | apps/api/app/services/payment_service.py:154-163 | in any state of the store, a request that passes the checks is refused, answered or sent by the entry of its key alone |
| PaymentRetries.RetriedSession | apps/api/app/services/payment_service.py:129-163 | sent again after any further steps, a request answered with its own payment changes nothing and gets a refusal, the booking's open payment or its own, in that order; one answered with another's payment is sent exactly when `SessionIsSentExactlyWhen` says |
| PaymentRetries.ForgottenRequestOpensAnother | apps/api/app/services/payment_service.py:142-163 | a concrete run in which a request answered with another's open payment, sent again once that has expired, opens a second payment |
| PaymentRetries.RedeliveryIsIgnored | apps/api/app/services/payment_service.py:441-443 | an event delivered again after any further steps is a duplicate and changes nothing |
| PaymentRetries.RetriedRefundMovesNoMoney | apps/api/app/services/payment_service.py:357-384 | an answered refund sent again after any further steps moves nothing, and returns the stored payment exactly when what is then left still covers it |
| PaymentRetries.RetriedFullRefundIsRejected | apps/api/app/services/payment_service.py:357-358 | a concrete run in which the retry of a refund that succeeded is refused |
| RememberedKeys.RefundIsSentExactlyWhen | apps/api/app/services/payment_service.py:354-393 | a staff refund reaches the provider exactly for a paid booking whose payment covers it, under a new key; otherwise it changes nothing |
| RememberedKeys.CancelIsCarriedOutExactlyWhen | apps/api/app/services/cancellation_service.py:57-74 | a cancellation is carried out exactly on a live booking, under a new key, when the airline agrees; otherwise it changes nothing |
| RememberedKeys.KnownExactlyWhen | apps/api/app/core/idempotency.py:63-77 | after every run the store knows a key exactly when some step carried its call out under it: refused, rejected and failed calls are forgotten |
| RememberedKeys.KnownResult | apps/api/app/core/idempotency.py:71-73 | what it knows is that step's result, for ever |
| RememberedKeys.RaisedChangesNothing | apps/api/app/services/payment_service.py:386-416 | in every reached state and for every operation, a call that raises leaves tables and store as they were, except exactly when it is a refund that the provider rejects |
| ServiceAnswers.RaisedExactlyWhen | apps/api/app/services/payment_service.py:121-400 | in every reached state and for every operation, each error is raised exactly for its one reason; none finds its key in progress or a malformed result |
| ServiceAnswers.DeliveryIsAnswered | apps/api/app/services/payment_service.py:441-502 | a delivery changes at most the payment of its session and that booking's payment status; its answer says which of the five things happened, a transition exactly when a payment changed to that status |
| ServiceAnswers.DeliveryMeans | apps/api/app/core/payments/state_machine.py:129-155 | in every reached state, what each kind of event, delivered under a new id, makes of an open payment; terminal ones stay |
| ServiceAnswers.AsynchronousPaymentSucceeds | apps/api/app/services/payment_service.py:472-493 | a concrete run in which a payment is completed first and captured later |
| RefundRecords.SentRefundIsRecorded | apps/api/app/services/payment_service.py:386-419 | a refund that is sent and refused changes nothing; an answered one is recorded whatever the answer, remembered unless rejected, and closes the booking exactly when all that was left was refunded with success |
| RefundRecords.RefusedRefundIsSentAgain | apps/api/app/services/payment_service.py:394-400 | after a refusal and any further steps the same request reaches the provider exactly when it is still covered and no refund has since been carried out under its key |
| RefundRecords.RefusedThenRefunded | apps/api/app/services/payment_service.py:394-419 | a concrete run: a refund is refused, sent again and made |
| RefundRecords.CancellationAsksExactlyWhen | apps/api/app/services/cancellation_service.py:84-119 | a cancellation asks for a refund exactly when it is carried out on a paid booking and something is due, and for what is due |
| RefundRecords.ColumnsShowTheLastAnswer | apps/api/app/services/payment_service.py:311-334 | after every run a payment's refund status and id are those of the last answer to a refund of it, or of a closing without one |
| BookingStatuses.StatusIsItsHistory | apps/api/app/services/booking_service.py:215-220 | after every run a booking is CANCELLED exactly when a cancellation of it was carried out, MODIFIED exactly when none was and a change of its flight was, and otherwise CONFIRMED |
| BookingStatuses.CancellationIsAnswered | apps/api/app/services/cancellation_service.py:66-153 | "already cancelled" exactly when the booking was cancelled before the call; "cancelled" also when the key has cancelled another booking, and then the booking is not cancelled |
| BookingStatuses.InProgressDoesNotStopCancel | apps/api/app/services/cancellation_service.py:69-74 | in any state of the store only a completed entry of its key stops a cancellation that passes the checks; a key in progress does not |
| BookingStatuses.OneKeyForTwoCancellations | apps/api/app/services/cancellation_service.py:69-71 | a concrete run in which that happens |
| BookingStatuses.ModificationIsAnswered | apps/api/app/services/booking_service.py:187-239 | a modification succeeds exactly when it is carried out, and then changes its booking's price, with the flight its status, and nothing else |
| PaymentPrices.PriceIsTheLastOne | apps/api/app/services/booking_service.py:215-236 | after every run a booking's price is its first or that of the last modification carried out |
| PaymentPrices.EveryPaymentChargesThePriceThen | apps/api/app/services/payment_service.py:166-172 | after every run, every payment charges the last price before the step that started its session |
| RejectedRefunds.RejectedFullRefundBlocksRefunds | apps/api/app/services/payment_service.py:366-373 | after a rejected full refund and any further steps, every confirmed refund of the booking is refused |
| RejectedRefunds.NothingLeftCancelsForNothing | apps/api/app/services/cancellation_service.py:87-101 | such a booking's cancellation asks the provider for nothing, credits nothing and marks it REFUNDED |
| RejectedRefunds.RefundedIsBackedExactlyWhen | apps/api/app/services/payment_service.py:320-339 | a corollary of `LedgersAgreeUnlessRejected`: for a REFUNDED booking the provider took on the recorded amount exactly when no refund of its payment was rejected, and otherwise less |
| RejectedRefunds.RefundedForNothing | apps/api/app/services/payment_service.py:320-339 | a concrete run that ends REFUNDED with everything recorded and nothing refunded |
| CancelledBookings.RefundedDuringExactlyWhen | apps/api/app/services/payment_service.py:336-339 | over any run a booking becomes REFUNDED exactly when some step closes its payment out |
| CancelledBookings.CancelledStays | apps/api/app/services/payment_service.py:132-133 | a cancelled booking stays cancelled and gets no new payment |
| CancelledBookings.CancellingAgainChangesNothing | apps/api/app/services/cancellation_service.py:66-67 | a confirmed cancellation of a cancelled booking, at any later time, succeeds and changes nothing |
| CancelledBookings.CancelledIsPaidExactlyWhen | apps/api/app/services/cancellation_service.py:75-140 | a cancelled booking is PAID later exactly when its payment was captured and not closed out by the cancellation, or was open and its accepted events settle to success, and no later step closes it out |
| CancelledBookings.PayableExactlyWhen | apps/api/app/services/cancellation_service.py:75-140 | after a cancellation some continuation ends PAID exactly when the booking was pending, or was paid and not closed out by it; otherwise none does |
| CancelledBookings.CancelledAndPaid | apps/api/app/services/payment_service.py:483-493 | a concrete run that ends CANCELLED and PAID |
| PaymentCancellation.CancellationCreditsTheCappedAmount | apps/api/app/services/cancellation_service.py:84-119 | a cancelled paid booking is credited the airline's amount, at least nothing and at most what is left, and nothing else changes |
| BothProviders.CancelledAtBoth | apps/api/app/services/cancellation_service.py:66-80 | in every run of quotes, bookings, changes, cancellations and payments, a booking is cancelled at the airline exactly when it is in the database |
| BothProviders.PricesAgreeExactlyWhen | apps/api/app/services/booking_service.py:187-239 | in every such run, airline and database agree on a booking's price exactly when the last change the airline answered for it came under a key not seen for another booking, or seen for one at the same price |
| BothProviders.OneKeyForTwoBookings | apps/api/app/providers/airline/mock.py:302-305 | a concrete run in which one key for changes of two bookings makes the prices come apart |
| BothProviders.CustomerLosesExactlyTheFee | apps/api/app/services/cancellation_service.py:73-119 | in every such run, after any earlier refunds, cancelling a paid booking credits the airline's refund, capped at what is left, and costs what was left less that refund, never less than nothing: exactly the fee if and only if what was left is the airline's total |
| TwoLedgers.NextKeepsValid | apps/api/app/providers/payments/mock.py:135-172 | every step of services, customers and provider keeps both ledgers equal row by row and every provider key recorded in the store |
| TwoLedgers.RunKeepsValid | apps/api/app/providers/payments/mock.py:135-172 | so does every run |
| TwoLedgers.LedgersAgree | apps/api/app/providers/payments/mock.py:159-172 | after any run each `refunded_amount` equals its session's, between 0 and what was captured |
| TwoLedgers.CapturedAtMostOnce | apps/api/app/providers/payments/mock.py:195-200 | at most one session of a booking is ever captured, and PAID or REFUNDED means one is |
| TwoLedgers.ProviderNeverRefuses | apps/api/app/providers/payments/mock.py:152-163 | no call of the services reaches a refusal of the provider or a UNIQUE violation |
| TwoLedgers.MockRunsAreProviderRuns | apps/api/app/providers/payments/mock.py:89-172 | every run with the mock is a run with an echoing provider, so the theorems for any provider hold of it |
| WebhookConfluence.SettlesToFinal | apps/api/app/core/payments/state_machine.py:64-77 | every order and duplication of compatible events ends in the status their set implies |
| WebhookConfluence.OrderFreeExactlyWhen | apps/api/app/core/payments/state_machine.py:129-155 | delivery order is irrelevant for a set of events exactly when it implies at most one terminal status and not both EXPIRED and PROCESSING |
| WebhookConfluence.AcceptedAreNew | apps/api/app/services/payment_service.py:441-443 | deduplication drops deliveries but no event |
| WebhookConfluence.StatusAfterRun | apps/api/app/services/payment_service.py:472-484 | over any run, whatever calls are interleaved, a payment's status is what its accepted events settle to |
| WebhookConfluence.StatusIsOrderFree | apps/api/app/services/payment_service.py:441-502 | so it depends only on the set of new events, if they are compatible |
| WebhookConfluence.DeliveredAreReports | apps/api/app/providers/payments/mock.py:207-224 | every event delivered over a run is one the provider may still report at its end |
| WebhookConfluence.MockSignalsAreCompatible | apps/api/app/providers/payments/mock.py:195-224 | the events delivered for one session over any run with the mock never imply two outcomes |
| WebhookConfluence.MockStatusIsOrderFree | apps/api/app/services/payment_service.py:441-502 | with the mock the events are always compatible: delivery order never matters |
| WebhookConfluence.SucceedsExactlyWhen | apps/api/app/services/payment_service.py:441-502 | compatible events lead a pending payment to SUCCEEDED exactly when one that reports success comes under an id not seen before |
| WebhookConfluence.NewPaymentSucceedsExactlyWhen | apps/api/app/services/payment_service.py:454-471 | a payment just committed reaches SUCCEEDED exactly when a report of success comes afterwards under an id that was not delivered before: what came before its row does not count |
| WebhookConfluence.MockPaymentSucceedsExactlyWhen | apps/api/app/services/payment_service.py:441-502 | with the mock the first of these holds with no condition on the events being compatible |
| WebhookConfluence.EarlyEventIsLost | apps/api/app/services/payment_service.py:454-471 | a concrete run in which the event of a captured payment is consumed before its row exists, and sent again is a duplicate |
| ExactlyOnce.NextKeepsValid | apps/api/app/services/payment_service.py:154-237 | every step of any thread keeps keys exclusive, results resolvable and providers' records in step |
| ExactlyOnce.RunKeepsValid | apps/api/app/services/payment_service.py:154-237 | so does every interleaving |
| ExactlyOnce.MutualExclusion | apps/api/app/core/idempotency.py:55-69 | at most one thread per key between `begin` and `complete` or `fail`; every other call with the key is refused as in progress |
| ExactlyOnce.OncePerKey | apps/api/app/services/booking_service.py:50-75 | each key causes at most one provider effect and one commit; a payment row records the one session of its key |
| StuckKeys.InProgressExactlyWhen | apps/api/app/services/payment_service.py:386-419 | after every interleaving a key is in progress exactly when a thread holds it or a refund was left behind under it |
| StuckKeys.LeftBehindForEver | apps/api/app/services/payment_service.py:402-412 | a refund left behind has been made by the provider and is never committed, and every further call with its key is refused |
| StuckKeys.StaysInProgressExactlyWhen | apps/api/app/services/payment_service.py:386-419 | a key in progress stays so whatever happens exactly when a refund was left behind under it |
| RefundsOnce.RefundedOncePerKey | apps/api/app/providers/payments/mock.py:135-172 | however calls and retries are interleaved, all that the provider has refunded is the sum of one refund for each key under which it made one |
| RefundsOnce.RefundIsAddedExactlyWhen | apps/api/app/services/payment_service.py:317-323 | a refund that commits adds its amount to the column exactly when the column still says what the call had read; otherwise a refund under another key is lost there |
| RefundsOnce.RefundIsCompleted | apps/api/app/services/payment_service.py:386-419 | a concrete run: booking, session, payment, webhook, and a refund made once, committed once and answered |
| RefundsOnce.RefundIsLeftBehind | apps/api/app/services/payment_service.py:402-412 | a concrete run in which the refund's commit fails: the provider has made it, the row does not show it, and its key is in progress over every continuation |
| ExactlyOnce.NoDuplicateRow | apps/api/app/services/payment_service.py:185-198 | no thread about to commit a payment row can meet a UNIQUE violation |
| ExactlyOnce.CompletedIsFinal | apps/api/app/services/payment_service.py:375-384 | after `complete` the result never changes, no provider call happens again under the key, and later calls return it |
| RateLimiter.InMemoryRateLimitStore.IncrementWindow | apps/api/app/core/security/rate_limiter.py:77-84 | one increment in place; other keys and the failure states are kept |
| RateLimiter.InMemoryRateLimitStore.SetFailureState | apps/api/app/core/security/rate_limiter.py:90-92 | this key's failure state, and nothing else, is replaced |
| RateLimiter.InMemoryRateLimitStore.ClearFailureState | apps/api/app/core/security/rate_limiter.py:94-96 | this key's failure state, and nothing else, is forgotten |
| RateLimiter.FixedWindowRateLimiter.Check | apps/api/app/core/security/rate_limiter.py:115-121 | the decision, what remains and how long to wait |
| RateLimiter.BackoffLockout.IsLocked | apps/api/app/core/security/rate_limiter.py:166-173 | allowed exactly when there is no lock or it is over; what remains, and a wait that is zero or ends with the lock |
| RateLimiter.BackoffLockout.RecordFailure | apps/api/app/core/security/rate_limiter.py:175-195 | one more failure, and from the threshold on a new capped lock |
| RateLimiter.BackoffLockout.RecordSuccess | apps/api/app/core/security/rate_limiter.py:197-198 | the count and the lock of this key are cleared |
| RateLimiter.LessThanTwiceTheLimit | apps/api/app/core/security/rate_limiter.py:77-121 | with a non-decreasing clock, at most 2 x limit - 1 checks are allowed in any interval as long as the window |
| RateLimiter.BoundIsReached | apps/api/app/core/security/rate_limiter.py:77-121 | that bound is reached for every limit and every window |
| RateLimiter.AllowedInWindowBound | apps/api/app/core/security/rate_limiter.py:115-121 | at most limit between two consecutive window starts, and exactly the smaller of limit and count in the running window |
| RateLimiter.LocksAreDoubled | apps/api/app/core/security/rate_limiter.py:178-185 | from the threshold on each failure in a row stores a lock of the base doubled once per failure past it, at most max; below it there is none |
| RateLimiter.EachLockIsTwiceTheLast | apps/api/app/core/security/rate_limiter.py:179-184 | the first lock is the base and each one after it twice the one before, up to max |
| RateLimiter.LocksAddUp | apps/api/app/core/security/rate_limiter.py:179-184 | until max is reached the first n locks last 2^n - 1 times the base |
| RateLimiter.AdmittedExactlyWhen | apps/api/app/core/security/rate_limiter.py:166-173 | after failures in a row a key is let pass exactly from the end of the last lock on |
| RateLimiter.GuessingSlowsDown | apps/api/app/core/security/rate_limiter.py:166-185 | the n-th failure past the threshold comes no sooner than the sum of the n stored locks before it, until max is reached 2^n - 1 times the base |
| RateLimiter.NeverPermanent | apps/api/app/core/security/rate_limiter.py:147-185 | in every reachable state a lock ends within the maximum of the last failure |
| TtlStore.InProcessRedisFallback.Get | apps/api/app/db/redis_client.py:30-41 | a live value, or None and the key is gone |
| TtlStore.InProcessRedisFallback.Set | apps/api/app/db/redis_client.py:43-46 | value and expiry; a zero or missing time to live means none |
| TtlStore.InProcessRedisFallback.Delete | apps/api/app/db/redis_client.py:56-57 | this key, and no other, is gone |
| TtlStore.RedisRateLimitStore.IncrementWindow | apps/api/app/services/rate_limit_service.py:32-45 | the increment of the window that expiry lets it see |
| TtlStore.RedisRateLimitStore.GetFailureState | apps/api/app/services/rate_limit_service.py:47-52 | the failure state that expiry lets it see |
| TtlStore.RedisRateLimitStore.SetFailureState | apps/api/app/services/rate_limit_service.py:54-58 | the state is kept for a day |
| TtlStore.RedisRateLimitStore.ClearFailureState | apps/api/app/services/rate_limit_service.py:60-61 | this key's failure state is gone |
| TtlStore.SetIsReadUntilExpiry | apps/api/app/db/redis_client.py:30-46 | a value is read back exactly up to its expiry, and for ever without a time to live or with zero |
| TtlStore.TtlStoreRefinesPlain | apps/api/app/services/rate_limit_service.py:39-45 | over any increments on any keys the store with expiry returns the same counts and starts as the plain one, as long as no read is later than windows are kept |
| TtlStore.StoresAgreeExactlyWhen | apps/api/app/services/rate_limit_service.py:39-45 | for every window length they agree on all increments exactly when reads are late by at most five seconds less the fraction of a second in the length |
| TtlStore.EvictionIsInvisible | apps/api/app/db/redis_client.py:37-41 | removing a lapsed key on read changes no later read |
| TtlStore.ActiveLockIsNeverEvicted | apps/api/app/services/rate_limit_service.py:47-61 | after any failures and successes, however far apart, with locks of at most a day every decision is that of the state last written for the key, as if it never expired |
| TtlStore.LongLockIsEvicted | apps/api/app/services/rate_limit_service.py:54-58 | for every rule with a longer lock, a run that evicts it while it is active |
| TtlStore.NeverEvictedExactlyWhen | apps/api/app/services/rate_limit_service.py:47-61 | no run evicts an active lock exactly when no lock outlasts a day |
| TtlStore.LockDecisionsAgree | apps/api/app/services/rate_limit_service.py:47-61 | without a day-long gap between failures, and with locks of at most a day, it is also the plain store's decision |
| TtlStore.FailuresCountedExactlyWhileLive | apps/api/app/services/rate_limit_service.py:56-58 | a failure starts the count again exactly when more than a day has passed |
| TtlStore.ExpiryNeverLocksOut | apps/api/app/services/rate_limit_service.py:47-61 | over every run, gaps or not, whoever the plain store would let pass is let pass |
| Verification.VerificationSessionService.Start | apps/api/app/services/verification_service.py:94-110 | a new pending session under its token |
| Verification.VerificationSessionService.Submit | apps/api/app/services/verification_service.py:112-157 | the call in place is `SubmitTo`, with a lockout or without: unknown, locked, used up or recorded |
| Verification.VerificationSessionService.Check | apps/api/app/services/verification_service.py:159-169 | true exactly for a verified session, in time, of this booking and purpose |
| Verification.RunIsCounted | apps/api/app/core/security/verification.py:99-115 | attempts count the scored submissions and never pass the maximum; VERIFIED means one matched strictly before expiry |
| Verification.TerminalIsFinal | apps/api/app/core/security/verification.py:101-108 | VERIFIED, FAILED and EXPIRED are never left |
| Verification.ChecksPassExactlyWhen | apps/api/app/core/security/verification.py:87-122 | a check passes exactly when some submission matched while the session was open and in time, the check is in time, and booking and purpose are those it was started for |
| Verification.FailsAtTheFifthMismatch | apps/api/app/core/security/verification.py:99-115 | a started session fails exactly at its fifth scored submission when none has matched, and no more are scored |
| Verification.SubmissionIsAnswered | apps/api/app/services/verification_service.py:112-157 | refused exactly for an unknown token, a locked booking or a used-up session; otherwise what becomes of the session and of the lockout |
| Verification.SessionsAreTheirOwn | apps/api/app/services/verification_service.py:112-157 | in every run of the service, a session is what its own submissions that the lockout let pass have made of it |
| Verification.ServiceChecksPassExactlyWhen | apps/api/app/services/verification_service.py:94-169 | that condition for checks, over every run of the service with any sessions and bookings |
| Verification.LockoutFollowsMismatches | apps/api/app/services/verification_service.py:124-155 | a booking's lockout state is that of its mismatches since its last match, across sessions, each of which it let pass |
| Verification.MismatchesSlowDown | apps/api/app/services/verification_service.py:124-155 | over any number of sessions, the n-th mismatch on a booking past the threshold waits for the sum of the locks before it, until max is reached 2^n - 1 times the base |
| AirlineMoney.MoneyIsNearest | apps/api/app/providers/airline/mock.py:60-61 | rounding gives the one nearest cent, ties away from zero |
| AirlineMoney.RepriceSplits | apps/api/app/providers/airline/mock.py:414-414 | the one-shot price is the fare in whole cents, 8 per cent of it to the nearest cent, and 25.00 |
| AirlineMoney.QuoteIsRounded | apps/api/app/providers/airline/mock.py:217-226 | base, taxes of 8 per cent and total of a quote, each to the nearest cent |
| AirlineMoney.QuoteIsRepriceExactlyWhen | apps/api/app/providers/airline/mock.py:217-226 | the stepwise quote never exceeds the one-shot price and equals it exactly when the discounts round away: for adults, always |
| AirlineMoney.CancellationConserves | apps/api/app/providers/airline/mock.py:394-395 | fee and refund are not negative and add up to the total |
| AirlineMoney.FeeIsPositive | apps/api/app/providers/airline/mock.py:385-394 | cancelling a booking whose total covers the booking fee always costs something |
| AirlineMoney.FeeNeverFalls | apps/api/app/providers/airline/mock.py:385-395 | the fee never falls and the refund never grows as departure approaches |
| Airline.MockAirlineProvider.GetFareQuote | apps/api/app/providers/airline/mock.py:209-245 | the quote in place, kept for fifteen minutes |
| Airline.MockAirlineProvider.CreateBooking | apps/api/app/providers/airline/mock.py:249-291 | replay, missing or expired quote, or one new confirmed booking at the quoted total |
| Airline.MockAirlineProvider.UpdateBooking | apps/api/app/providers/airline/mock.py:299-336 | replay, refusals, or the changed and repriced booking |
| Airline.MockAirlineProvider.CancelBooking | apps/api/app/providers/airline/mock.py:338-366 | fee and refund of a first cancellation, zero for a later one |
| Airline.MockAirlineProvider.AddPassengerTo | apps/api/app/providers/airline/mock.py:407-417 | one more passenger, repriced |
| Airline.MockAirlineProvider.RemovePassengerFrom | apps/api/app/providers/airline/mock.py:419-431 | unknown passenger, last passenger, or the rest repriced |
| Airline.CancelledIsFinal | apps/api/app/providers/airline/mock.py:299-366 | over any run a cancelled booking stays cancelled, hands nothing more back, and every seen key names a live booking |
| Airline.FirstCancelIsAllThatIsHandedBack | apps/api/app/providers/airline/mock.py:338-366 | the first cancellation's refund is all that is ever handed back, and with the fee it is the total |
| Airline.SeenStays | apps/api/app/providers/airline/mock.py:257-260 | a key, once seen, names the same booking for ever |
| Airline.RetriesAreReplayed | apps/api/app/providers/airline/mock.py:257-305 | a creation or change sent again under its key after any operations changes nothing and returns the same booking |
| Airline.AddThenRemove | apps/api/app/providers/airline/mock.py:407-431 | adding a passenger under a new id and removing it restores everything exactly when the total was the one-shot price; otherwise only the total changes |
| Airline.QuotedBookingSurvivesAddThenRemove | apps/api/app/providers/airline/mock.py:217-431 | from quote to booking to that round trip: restored exactly when the quote's discounts round away |
| AirlineBookings.OthersStay | apps/api/app/providers/airline/mock.py:419-422 | a passenger stays exactly with another id, and as often as before |
| AirlineBookings.RemovalSplits | apps/api/app/providers/airline/mock.py:419-422 | removal works on every part of the list by itself, so order is kept |
| AirlineBookings.RemovalIsAnswered | apps/api/app/providers/airline/mock.py:419-431 | refused exactly when nobody has the id, nobody would be left or the flight is gone; otherwise exactly the others stay, in order, at the one-shot price for that many |
| AirlineBookings.AdditionIsAnswered | apps/api/app/providers/airline/mock.py:407-417 | one passenger more at the end, under its own id or a new one, at the one-shot price |
| AirlineBookings.ChangeIsAnswered | apps/api/app/providers/airline/mock.py:307-336 | under a new key a change is carried out exactly on a live booking and to a flight that exists; flight, departure, status, price, contacts and passengers of the result |
| AirlineBookings.RunKeepsOnSchedule | apps/api/app/providers/airline/mock.py:231-331 | over every run quotes and bookings depart when their flights do |
| AirlineBookings.FeeFollowsTheFlight | apps/api/app/providers/airline/mock.py:385-395 | in every run, after any changes of flight, a cancellation keeps to the nearest cent the share that goes with the days left to the departure of the flight the booking is on, and hands back the rest |
| AirlineBookings.CancelIsAnswered | apps/api/app/providers/airline/mock.py:344-353 | a booking is cancelled once; later calls are told so, get nothing and change nothing |
| AirlineBookings.QuoteIsGivenExactlyWhen | apps/api/app/providers/airline/mock.py:209-216 | a quote is given exactly for a flight that exists |
| AirlineBookings.CreationIsAnswered | apps/api/app/providers/airline/mock.py:261-270 | under a new key a booking is made exactly from a quote that was given and has not run out |
| AirlineBookings.QuoteIsHonouredExactlyWhen | apps/api/app/providers/airline/mock.py:228-291 | whatever happens in between, a quote is honoured exactly up to fifteen minutes after it was given, at the quoted total |
| FlightIds.RoundTrips | apps/api/app/providers/airline/mock.py:490-504 | a printed id parses back to what was printed |
| FlightIds.CabinSeparators | apps/api/app/providers/airline/base.py:25-30 | premium economy is the one cabin whose name holds the separator |
| FlightIds.RoundTripsExactlyWhen | apps/api/app/providers/airline/mock.py:490-504 | it does so exactly without underscores in the airport codes and outside premium economy; otherwise it does not parse |
| FlightIds.PrintedId | apps/api/app/providers/airline/mock.py:490-493 | how the id of one flight looks in each cabin |
| Calendar.OrdinalIs | apps/api/app/core/dates.py:39-46 | the day number of every date in closed form, leap years and month lengths included |
| Calendar.WeekdayIsTheOnlyNumbering | apps/api/app/core/dates.py:39-46 | `Weekday` is the one numbering of dates that goes round from day to day and in which 1 January 2024 is a Monday |
| Calendar.NextWeekdayIsEarliest | apps/api/app/core/dates.py:39-46 | the earliest date on or after today with that weekday |
| Calendar.WeekdaysResolveEarliest | apps/api/app/core/dates.py:65-136 | so does every phrase that names a weekday |
| Calendar.TodayAndTomorrow | apps/api/app/core/dates.py:60-64 | today and the earliest date after it, without confirmation; what is not recognised gets none |
| Calendar.FourDaysPastThe28th | apps/api/app/core/dates.py:112-114 | four days past the 28th always lead to the first of the next month |
| Calendar.NthResolvesEarliest | apps/api/app/core/dates.py:98-127 | the earliest date on or after today with that day of the month, and nothing exactly when this month lacks it, or it has passed and the next month lacks it |
| Calendar.OrdinalOrders | apps/api/app/core/dates.py:39-46 | day numbers order dates as the calendar does |
| Analytics.SummarizeRevenue | apps/api/app/core/admin/analytics.py:120-146 | the loop gives gross and net per currency and one strictly sorted point per day and currency that occurs |
| Analytics.SortDays | apps/api/app/core/admin/analytics.py:142-145 | strictly sorted by day and currency, with exactly the entries of the table |
| Analytics.NetIsGrossMinusRefunds | apps/api/app/core/admin/analytics.py:133-136 | net is gross minus refunds, per currency |
| Analytics.NetIsGrossExactlyWhen | apps/api/app/core/admin/analytics.py:133-136 | net is gross exactly when no payment of the currency has a refund |
| Analytics.DailyPointsSumToNet | apps/api/app/core/admin/analytics.py:138-145 | the daily points of a currency add up to its net |
| Analytics.DailyPointsAreChronological | apps/api/app/core/admin/analytics.py:138-145 | the daily points come in the order of the calendar, and on one day by currency |
| Analytics.RevenueIgnoresOrder | apps/api/app/core/admin/analytics.py:120-146 | all three results are the same for the payments in any order |
| Analytics.RevenueIsBounded | apps/api/app/core/admin/analytics.py:133-136 | for payments of any reached database, net is between 0 and gross |
| Analytics.CountsSumToTotal | apps/api/app/core/admin/analytics.py:106-117 | the values of the returned map add up to the number of bookings, over exactly the statuses that occur, none of them zero |
| VapiUpserts.IndexExistingTools | scripts/setup_vapi.py:396-408 | the loop indexes function tools by name, the last one winning, and lists the transfer tools |
| VapiUpserts.IndexedIsThere | scripts/setup_vapi.py:396-408 | an indexed name belongs to a tool of the account, the last with that name |
| VapiUpserts.IndexedExactlyWhen | scripts/setup_vapi.py:396-408 | a name is indexed exactly when it is not empty and some function tool carries it |
| VapiUpserts.PlanFunctionToolUpserts | scripts/setup_vapi.py:279-300 | the loop plans one entry per schema, in order |
| VapiUpserts.VapiClient.CreateTool | scripts/setup_vapi.py:367-370 | one more tool, under a new id |
| VapiUpserts.VapiClient.UpdateTool | scripts/setup_vapi.py:372-375 | the tool with this id holds the payload; the others are as before |
| VapiUpserts.VapiClient.ApplyPlan | scripts/setup_vapi.py:411-432 | the entries are applied in order to the account, and the ids come back in that order |
| VapiUpserts.VapiClient.Run | scripts/setup_vapi.py:570-582 | list, plan and apply in place is `Setup`; a refusal leaves the account alone |
| VapiUpserts.FirstRunConverges | scripts/setup_vapi.py:279-328 | refused exactly with a destination and several transfer tools; otherwise every schema's name is indexed at its returned id, which holds the planned payload |
| VapiUpserts.SecondRunChangesNothing | scripts/setup_vapi.py:396-432 | a second run creates nothing, leaves the account as it is and returns the same ids in the same order |
| VapiUpserts.OthersAreLeftAlone | scripts/setup_vapi.py:411-432 | schemas never share a tool, and tools whose ids are not returned are untouched |

## Left out

- Serial runs assume no failure between a provider call and the local commit, and a store that keeps its entries: apps/api/app/services/payment_service.py:49-55 and apps/api/app/core/idempotency.py:11-14 do not claim more. Commits that fail are steps of `ExactlyOnce`, where session starts and creations release their key and refunds leave it behind.
- `ExactlyOnce` leaves cancellations out: `cancel` lets a key that is in progress pass (apps/api/app/services/cancellation_service.py:69-71). Lost updates between calls under different keys are allowed there, not excluded. A webhook there may give a row any status and intent.
- A cancellation whose commit fails after the airline has cancelled: a retry finds nothing refundable, so no crash-safe refund is claimed.
- Keys are tagged by operation, as `derive_idempotency_key` derives them; one key string used for two operations is not modelled. Hashes and tokens are injective or fresh.
- One payment intent per session, fixed once set and not shared: the mock's default intent, reused for several sessions, is not modelled.
- Webhook signatures and JSON, failure codes and messages, timestamps, audit events, notifications and the currency column of a payment.
- The Stripe, Amadeus and Sabre providers and the network: only what a payment provider may answer.
- PaymentServices.PaymentService.CreatePaymentSession: the mock never raises here, so the method has no exception branch around the provider call; `FinishCreate` has it.
- PaymentServices.CancellationService.Cancel: the airline's answer is an input, not a call.
- PaymentServices.BookingService.ModifyBooking: of the booking only status and price are modelled; the airline's answer is an input.
- `create_booking` is modelled as a protocol in `ExactlyOnce` and as a new unpaid row in runs; customers, passengers and flight fields are not.
- TtlStore.TtlStoreRefinesPlain: one window length per key, and positive ones. The text form of the stored values is not modelled.
- The mutable `FailureState` shared between store and caller: `record_failure` returns a copy, and states are values here. Overflow of a float power of two is not modelled either.
- Verification.VerificationSessionService.Submit: whether the submitted factor matches is an input.
- BothProviders.CustomerLosesExactlyTheFee: passenger additions and removals, which also change the airline's total, are not steps there, and a creation under a key the airline has seen is answered before it reaches the airline.
- Airline flights: price and departure are an arbitrary function of the id; search, availability, baggage and fare rules are not modelled.
- FlightIds.RoundTripsExactlyWhen: dates are parsed in the extended calendar format only and integers as plain decimal digits with a sign; what else Python's parsers accept concerns ids the printer never makes.
- Calendar.NthResolvesEarliest: years below 9999, where adding days cannot leave the calendar. Matching the phrase and wording the question are not modelled.
- Rates, paid and cancelled counts and the assembled analytics summary: one expression each.
- VapiUpserts.VapiClient.ApplyPlan: the account is in memory, answers every call, lists all its tools at once and takes an update as the tool's whole content; the assistant and the phone number are not modelled.
- Routes, schemas, roles, sessions, redaction, the voice-tool dispatcher and everything in the web client.
