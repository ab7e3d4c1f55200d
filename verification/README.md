# IronLoot: verified models

IronLoot is an auction and wallet platform. This project models, in Dafny, the parts of it in which
money or trust moves through small state machines that race, fail and retry, and proves what those
parts promise. Each concern has its source's form twice: a class with the fields and methods of the
service, proved against a specification function, and lemmas about that function: over every run, and
field by field, for what each operation leaves and when it is refused.

| files | what they model |
|---|---|
| `PaymentCycle`, `Payments`, `PaymentReference` | deposit requests, the decision on a provider's answer, the reservation and the deposit, the reference that names the user |
| `PaymentOutcomes` | what each kind of answer leaves, row by row, and what follows over whole runs |
| `PaymentRuns` | every sequence of requests, answers, failures, retries and expirations |
| `PaymentInterleaving`, `PaymentRaces` | many webhook and polling handlers in flight at once, one call at a time |
| `PaymentPolling` | the polling job, its batch, and how long an unanswered request is polled |
| `Wallets`, `WalletRuns`, `WalletOutcomes`, `Commissions` | wallets, the ledger, commission rounding, conservation over every run |
| `Orders`, `Settlement`, `SettlementRuns`, `SettlementOutcomes` | shipment, dispute, refund and the release of the seller's net |
| `Sessions` | refresh-token rotation with a grace window |
| `Auctions` | bidding, soft close, scheduled start and close |
| `Locks` | a lock with a time to live and compare-and-delete release, among several instances |
| `LogIndex`, `LogIndexFacts`, `LogIndexKept`, `LogIndexMeaning` | the status index rebuilt at the end of an append-only log |
| `Redaction`, `RedactionFacts`, `RedactionKeys` | what a payment trace keeps of a value |
| `Clabe` | the check digit of an 18-digit bank account number |
| `Text`, `Tally`, `Wrappers` | strings, counting, `Option` and `Result` |

## What is assumed

- A deposit into a wallet happens entirely or not at all, and may fail. Inserting a reservation may
  fail. Deleting one may fail too, and a handler may stop for good at any call, in
  `AtMostOneDepositPerPayment`; neither happens in `SettledAtRestIsPaid` and `RetryAtRestPays`, which
  are about nothing being lost. Event, trace and accounting writes and the reopening do not fail. The
  row, event and accounting writes of one decision count as one call.
- `SettledAtRestIsPaid` takes one completed payment per reference and an answer that asks for a credit:
  any number of copies of it, under any number of handlers, among any answers that are not COMPLETED.
- Each refresh, bid, start, close and settlement pass is one step. Settlement takes the rows in table
  order. Wallet operations lock their rows in the source and are one step each.
- Money is in whole cents, and the amounts providers report are exact reals; commission arithmetic
  is exact, with halves rounded up. Times are whole milliseconds and every instance reads one clock.
- What a provider answers, which outside call fails, configuration values and freshly minted tokens
  are parameters.

## Where the code and what is said of it differ

- The comment at `payment-cycle.service.ts:11-14` says about ten lookups; the code allows eleven
  (`ElevenLookupsHappen`, `PollingEnds`).
- SETTLED does not by itself mean paid: a completed answer without an amount settles the cycle and
  credits nothing (`SettledButUnpaid`; `WhenSettledMeansPaid` has the exact condition).
- The first answer is final whatever it says: an answer still pending at the provider closes the
  cycle, and the completed one that follows is neither credited nor refunded
  (`PendingThenCompletedIsLost`; `WhenAnAnswerEndsPaid` has the exact condition).
- Two payments of one request that race may both be deposited (`TwoPaymentsMayBothBePaid`), although
  the cycle is meant to take only the first; one payment never is twice (`OnePaymentIsPaidOnce`).
- `creditFromResult` reads the user out of the reference. That recovers every non-empty id on one
  line, and no other (`ParseOfPrint`).
- The comment at `bids.service.ts:67-70` says that published lots keep the seller restriction; the
  domain rules stop at the status, and the restriction is skipped (`WhenTheSellerMayBid`).
- Commission and net are rounded separately, so a commission on half a cent adds one cent
  (`CommissionAndNet`).
- The comment at `auction-scheduler.service.ts:317-319` says a refunded sale's net is no longer the
  seller's; the filter still selects it. The pass then marks sales as settled that pending no longer
  covers, without paying them (`MarkedButUnpaid`; `WhenAPassPays` and `SettledMeansPaid` have the exact
  condition).
- Reversing a sale between one and the same person makes money unless pending covers it
  (`SelfSaleMakesMoney`, `WhenReversalConserves`), and then breaks the ledger's history for good
  (`LedgerTellsEveryBalance`).
- Logging out with a retired token revokes nothing (`LogoutWithRetiredToken`, `LogoutEnds`).
- Redaction is not idempotent, and keeps a secret, where an object's plain form has a sensitive key
  (`WhenRedactionIsIdempotent`, `PlainFormKeepsASecret`).
- The comment at `indice-de-estado.ts:39` says that what precedes the mark is never touched. A mark
  without a separator before it makes each run cut one character and grow the file
  (`WhenRewritingIsIdempotent`, `MarkAloneIsLoose`).

## Model

| member | source | states |
|---|---|---|
| PaymentInterleaving.AtMostOneDepositPerPayment | src/api/src/modules/payments/payments.service.ts:325-368 | in every interleaving of any number of handlers, split into read, decide, reserve, deposit, unreserve and reopen, with any call failing and any handler stopping for good, a payment with an id is deposited at most once, and once deposited stays reserved; every reservation in progress has a single owner |
| PaymentRaces.EveryDepositIsRightful | src/api/src/modules/payments/payments.service.ts:284-306 | in every interleaving, whatever fails and whoever stops midway, every deposit went to the user its reference names and its cycle was opened by, for exactly the amount requested |
| PaymentRaces.OnePaymentIsPaidOnce | src/api/src/modules/payments/payments.service.ts:253-368 | with one completed payment per reference, among any other answers, the reference is credited at most once in every interleaving, whatever fails and whoever stops |
| PaymentRaces.TwoPaymentsMayBothBePaid | src/api/src/modules/payments/payment-cycle.service.ts:191-273 | a run in which two payments under one reference, both read while its cycle is open, are both deposited |
| PaymentRaces.ThreeCallsDeposit | src/api/src/modules/payments/payments.service.ts:325-368 | a handler about to decide on an open snapshot, its payment unreserved, deposits with its next three calls whatever has become of the row |
| PaymentInterleaving.SettledAtRestIsPaid | src/api/src/modules/payments/payments.service.ts:253-282 | with one completed payment per reference, among any pending, failed or refunded answers about it, whenever no handler is in flight a cycle in SETTLED has exactly one deposit under its reference: the payment's user, amount and key |
| PaymentInterleaving.RetryAtRestPays | src/api/src/modules/payments/payments.service.ts:268-279 | at rest, one more delivery of the completed answer, meeting no failure, leaves the reference with exactly one deposit if and only if it had one or its cycle is open and matches; a settled one always has |
| PaymentInterleaving.AloneIsSequential | src/api/src/modules/payments/payments.service.ts:253-368 | a handler nobody interferes with does in six calls exactly what one sequential `applyProviderResult` does, result and exception included |
| PaymentRuns.AtMostOneDepositPerReference | src/api/src/modules/payments/payments.service.ts:284-306 | over every sequential run of requests, answers, failures, retries, expirations and stale reschedules, a reference gets at most one deposit, to the cycle's user, named by the reference, for exactly the amount requested, and the books show it completed |
| PaymentRuns.DepositReachesTheRequester | src/api/src/modules/payments/payments.service.ts:167-167 | a deposit under a reference printed for a user goes to that user, for every id |
| PaymentRuns.ProcessedMinusReopenings | src/api/src/modules/payments/payment-cycle.service.ts:191-273 | per reference, PROCESSED events minus reopenings is 0 or 1, 0 while REQUESTED, 1 when SETTLED, never less than the deposits; refund requests equal CANCELLED events |
| PaymentRuns.OneDecisionPerAnswer | src/api/src/modules/payments/payment-cycle.service.ts:421-444 | each answer appends exactly one decision event, with the outcome decided on the row as it was, even when the credit throws |
| PaymentRuns.AnswerOnClosedCycle | src/api/src/modules/payments/payment-cycle.service.ts:213-228 | an answer on a closed cycle moves no money, keeps the canonical payment id, changes the row only to ANOMALY and only for another payment, and asks for a refund exactly then |
| PaymentRuns.ClosedIsFinal | src/api/src/modules/payments/payment-cycle.service.ts:151-157 | once closed, no later run reopens the cycle, changes its payment, or deposits under its reference |
| PaymentRuns.WhenAnAnswerEndsPaid | src/api/src/modules/payments/payments.service.ts:253-368 | after every run, an answer that asks for a credit leaves its reference credited if and only if it was already, or its cycle is open and matches, its payment is unreserved and the calls go through |
| PaymentRuns.NotCompletedIsNeverPaid | src/api/src/modules/payments/payment-cycle.service.ts:230-245 | an answer that is not COMPLETED, arriving on an open cycle, leaves its reference without a deposit in every later run |
| PaymentRuns.PendingThenCompletedIsLost | src/api/src/modules/payments/payment-cycle.service.ts:213-245 | a run in which a payment notified as pending and then as completed is neither credited nor refunded |
| PaymentRuns.DepositsAfterAnswer | src/api/src/modules/payments/payments.service.ts:253-368 | in any state, an answer adds one deposit under its reference or none, and one exactly under those conditions |
| PaymentRuns.WhenSettledMeansPaid | src/api/src/modules/payments/payments.service.ts:258-306 | an answer that settles an open cycle pays exactly when the amount is there and positive, the reference parses, and the payment is unreserved or, without an id, the deposit goes through |
| PaymentRuns.SettledButUnpaid | src/api/src/modules/payments/payment-cycle.service.ts:256-272 | a run in which a completed answer without amount leaves a cycle SETTLED and nothing deposited |
| PaymentRuns.RunIsConsistent | src/api/src/modules/payments/payment-cycle.service.ts:191-336 | the invariant behind the results above: event, reopening, refund and deposit counts, rightful deposits, agreeing accounting rows |
| PaymentOutcomes.AnswerThatPays | src/api/src/modules/payments/payments.service.ts:253-368 | field by field: a COMPLETED answer that agrees with its open request settles the row on its payment id, reserves that provider's payment, and deposits the amount requested to the requester unless it was reserved |
| PaymentOutcomes.AnswerThatThrows | src/api/src/modules/payments/payments.service.ts:266-279 | when the credit throws, the row is open again and checked a minute later, and no money, reservation or refund request is left |
| PaymentOutcomes.AnswerWithoutId | src/api/src/modules/payments/payments.service.ts:333-343 | without an id nothing is reserved, and a failed deposit stays settled |
| PaymentOutcomes.AnswerWithNothingToPay | src/api/src/modules/payments/payments.service.ts:284-306 | a confirmation without an amount or a parsable reference settles and pays nothing |
| PaymentOutcomes.AnswerThatDisagrees | src/api/src/modules/payments/payment-cycle.service.ts:247-254 | a wrong currency, amount or user is flagged, and moves nothing |
| PaymentOutcomes.AnswerNotCompleted | src/api/src/modules/payments/payment-cycle.service.ts:230-245 | any other status closes the cycle as failed, on the payment it names |
| PaymentOutcomes.AnswerAfterClose | src/api/src/modules/payments/payment-cycle.service.ts:213-228 | after the close, the payment on record changes nothing; any other is flagged, and its refund asked for, of what it reports |
| PaymentOutcomes.DepositsBearTheirId | src/api/src/modules/payments/payment-cycle.service.ts:256-272 | over every run, a cycle with a deposit under a payment id has that very id on record |
| PaymentOutcomes.RepeatsChangeNothing | src/api/src/modules/payments/payment-cycle.service.ts:213-219 | once closed on a payment, a cycle, its deposits and its refund requests stay as they are over every run in which only that payment is reported of it, however often and under any failures |
| PaymentOutcomes.SettlingAnswerAgain | src/api/src/modules/payments/payment-cycle.service.ts:213-219 | an answer that settled its cycle, applied again at any time and under any failures, leaves cycles, deposits, reservations and refund requests as they were |
| PaymentOutcomes.RunForgetsNone | src/api/src/modules/payments/payment-cycle.service.ts:151-157 | over every run, every open request has a next check |
| PaymentOutcomes.InterleavingForgetsNone | src/api/src/modules/payments/payment-cycle.service.ts:151-157 | and in every interleaving, whatever fails and whoever stops midway |
| PaymentOutcomes.FailedCreditIsVisited | src/api/src/modules/payments/payment-cycle.service.ts:276-282 | a minute after a credit that throws, and from then on, a polling pass visits the cycle unless fifty others come no later |
| PaymentOutcomes.DueIsVisited | src/api/src/modules/payments/payment-cycle.service.ts:276-282 | so does it every request whose check has come |
| PaymentOutcomes.FreshRequest | src/api/src/modules/payments/payment-cycle.service.ts:86-99 | a request starts open and unanswered, with its first check a minute away, unless its reference is taken |
| PaymentOutcomes.StaleReschedule | src/api/src/modules/payments/payment-cycle.service.ts:306-312 | each delay by the count read, and the stored count going on from itself |
| PaymentOutcomes.WhenAVisitExpires | src/api/src/modules/payments/payment-cycle.service.ts:289-303 | a visit expires a cycle exactly when more than 72 hours have gone since its request |
| PaymentOutcomes.EventBears | src/api/src/modules/payments/payment-cycle.service.ts:421-444 | the event bears the reference, the provider and the payment id, empty where there is none |
| PaymentOutcomes.BooksAfterAnswer | src/api/src/modules/payments/payment-cycle.service.ts:348-377 | the books keep the first answer's provider, amount and currency, and follow the last one's completion and id |
| PaymentCycle.PaymentCycleService.Open | src/api/src/modules/payments/payment-cycle.service.ts:86-99 | the tables after a request: a new REQUESTED row due in a minute, or the old tables and failure for a reference in use |
| PaymentCycle.PaymentCycleService.Evaluate | src/api/src/modules/payments/payment-cycle.service.ts:191-273 | the new tables are those of the decision specified by `Evaluated`, on which the runs are proved, and the outcome is the decision |
| PaymentCycle.PaymentCycleService.ReopenForRetry | src/api/src/modules/payments/payment-cycle.service.ts:151-157 | only status and next check change, and one reopening is counted |
| PaymentCycle.PaymentCycleService.Expire | src/api/src/modules/payments/payment-cycle.service.ts:294-303 | only the row's status and next check change |
| PaymentCycle.PaymentCycleService.ScheduleNextCheck | src/api/src/modules/payments/payment-cycle.service.ts:306-312 | the count read goes up by one and the next check is its delay away |
| PaymentCycle.PaymentCycleService.FlagAnomaly | src/api/src/modules/payments/payment-cycle.service.ts:408-418 | only the status, the response time and the next check change |
| PaymentCycle.PaymentCycleService.WritePaymentRow | src/api/src/modules/payments/payment-cycle.service.ts:348-377 | created with the answer's amount, or only the completion updated |
| PaymentCycle.PaymentCycleService.RaiseRefund | src/api/src/modules/payments/payment-cycle.service.ts:384-405 | one refund request is appended |
| PaymentCycle.CheckDelay | src/api/src/modules/payments/payment-cycle.service.ts:306-312 | a delay is never under a minute nor over twelve hours |
| Payments.PaymentsService.InitiatePayment | src/api/src/modules/payments/payments.service.ts:159-204 | the tables after it hold a new open cycle under the printed reference; that reference is returned exactly when it was unused and the provider is usable |
| Payments.PaymentsService.ApplyProviderResult | src/api/src/modules/payments/payments.service.ts:253-282 | cycle tables, reservations and deposits after it are those of `Applied`, the specification proved on; it throws exactly when that says so |
| Payments.PaymentsService.CreditFromResult | src/api/src/modules/payments/payments.service.ts:284-306 | pays by `CreditedOnce` when the plan exists and touches nothing otherwise |
| Payments.PaymentsService.CreditOnce | src/api/src/modules/payments/payments.service.ts:325-368 | reserve, deposit, and on failure delete the reservation and throw |
| PaymentReference.ParseOfPrint | src/api/src/modules/payments/payments.service.ts:284-306 | parsing a printed reference gives the user's id back exactly when it is not empty and has no line terminator, hyphens and digits included |
| PaymentReference.PrintIsInjective | src/api/src/modules/payments/payments.service.ts:167-167 | two requests share a reference only for the same user in the same millisecond |
| PaymentReference.Parse | src/api/src/modules/payments/payment-cycle.service.ts:19-19 | the captured group of the pattern, or nothing exactly when nothing matches |
| PaymentPolling.PollingEnds | src/api/src/modules/payments/payment-cycle.service.ts:276-312 | a cycle nobody answers gets at most eleven non-throwing lookups however late each visit is, the twelfth such visit finds it expired, and then it is never due again |
| PaymentPolling.ElevenLookupsHappen | src/api/src/modules/payments/payment-cycle.service.ts:15-16 | eleven is reached by prompt visits |
| PaymentPolling.TwelfthVisitExpires | src/api/src/modules/payments/payment-cycle.service.ts:289-303 | any due visit after the eleventh lookup expires it, whether or not the lookup would throw |
| PaymentPolling.DelaysGrow | src/api/src/modules/payments/payment-cycle.service.ts:15-16 | gaps between checks never shrink |
| PaymentPolling.VisitIsPolling | src/api/src/modules/payments/payment-reconciliation.service.ts:55-99 | the visits counted are what polling does to the row |
| PaymentPolling.PollingIsARun | src/api/src/modules/payments/payment-reconciliation.service.ts:38-53 | a polling pass over rows read earlier is a run of the steps the results above quantify over |
| PaymentPolling.PaymentReconciliationService.DueForCheck | src/api/src/modules/payments/payment-cycle.service.ts:276-282 | the due cycles, each once, oldest check first, and all of them unless the limit cuts the rest |
| PaymentPolling.PaymentReconciliationService.ReconcileOne | src/api/src/modules/payments/payment-reconciliation.service.ts:55-99 | expire, skip, reschedule or apply, as specified |
| PaymentPolling.PaymentReconciliationService.ReconcilePending | src/api/src/modules/payments/payment-reconciliation.service.ts:38-53 | visits the batch of fifty in order, and one failure does not stop the others |
| SettlementRuns.ReleasedOnceAndInTime | src/api/src/modules/scheduler/auction-scheduler.service.ts:285-375 | in every run each order is released at most once, never under an OPEN or IN_MEDIATION dispute, and only after the holdback since its one delivery date or the window since its creation |
| SettlementRuns.WithoutTheBuyerOnlyTheWindow | src/api/src/modules/shipments/shipments.service.ts:38-40 | whatever everyone but the buyer does, the net is not released before creation plus the window |
| SettlementRuns.OnlyTheBuyerConfirms | src/api/src/modules/shipments/shipments.service.ts:134-214 | a delivery date appears only by the buyer's confirmation of a shipped order, at that moment |
| SettlementRuns.RowStepContinues | src/api/src/modules/shipments/shipments.service.ts:185-214 | one row operation keeps the sale's terms, a delivery date, a dispute once opened, and the settlement |
| SettlementRuns.NothingIsTakenBack | src/api/src/modules/shipments/shipments.service.ts:185-214 | over every later run, refunds and passes included, a sale keeps its terms, its delivery date and settlement never move once written, and its dispute never disappears |
| SettlementOutcomes.ConfirmedSaleIsSettled | src/api/src/modules/shipments/shipments.service.ts:185-214 | a buyer's confirmation of a shipped order dates it at that moment, and any pass from the holdback on that finds it unsettled and under no live dispute settles it, whatever came between |
| SettlementOutcomes.APassSettlesWhatIsDue | src/api/src/modules/scheduler/auction-scheduler.service.ts:306-374 | on every market a run reaches, a pass settles exactly the orders that are due, then and there, and touches no other |
| SettlementOutcomes.DeliveredIsDated | src/api/src/modules/shipments/shipments.service.ts:195-200 | over every run, every delivered order has its delivery date |
| SettlementOutcomes.WhenTheBuyerConfirms | src/api/src/modules/shipments/shipments.service.ts:134-214 | who may confirm what and when, if and only if, and each field it writes |
| SettlementOutcomes.WhenTheSellerShips | src/api/src/modules/shipments/shipments.service.ts:134-214 | who may ship what and when, if and only if, and each field it writes |
| SettlementOutcomes.WhenAnotherStatusIsSet | src/api/src/modules/shipments/shipments.service.ts:134-214 | the other two statuses are the seller's and move neither the order nor a date |
| SettlementOutcomes.WhenAShipmentIsCreated | src/api/src/modules/shipments/shipments.service.ts:55-115 | who may create a shipment of what, if and only if |
| SettlementOutcomes.WhyAShipmentStepFails | src/api/src/modules/shipments/shipments.service.ts:55-115 | which error each refusal is |
| SettlementOutcomes.WhenADisputeOpens | src/api/src/modules/disputes/disputes.service.ts:24-87 | by whom, of what and until when a dispute opens, if and only if; and it is open |
| SettlementOutcomes.WhyADisputeIsRefused | src/api/src/modules/disputes/disputes.service.ts:24-46 | which error each refusal is |
| SettlementOutcomes.OpenDisputeHoldsThePay | src/api/src/modules/scheduler/auction-scheduler.service.ts:341-343 | an order whose dispute has just opened is due at no time |
| SettlementOutcomes.WhenAnOrderIsRefunded | src/api/src/modules/refunds/refunds.service.ts:34-56 | a paid or delivered order is refunded once, for at most its total, if and only if |
| SettlementOutcomes.RefundReachesTheBuyer | src/api/src/modules/refunds/refunds.service.ts:56-80 | the whole amount reaches the buyer's balance |
| SettlementOutcomes.WhenASaleGoesThrough | src/api/src/modules/scheduler/auction-scheduler.service.ts:138-165 | a sale goes through exactly when the buyer holds the price, and its order carries its terms: the net stored and the commission add up to the price, one cent over on a half cent |
| SettlementRuns.SettledMeansPaid | src/api/src/modules/scheduler/auction-scheduler.service.ts:356-374 | in every run, refunds and sales to oneself included, each order marked as settled was really paid if and only if each pass of the job found, for every seller, the nets of the orders then mature within what was then pending |
| SettlementRuns.WhenAPassPays | src/api/src/modules/scheduler/auction-scheduler.service.ts:285-375 | for any orders whose sellers have wallets and no negative pending, one pass pays all it marks if and only if each seller's mature nets are at most their pending |
| SettlementRuns.PendingIsAccountedFor | src/api/src/modules/wallet/wallet.service.ts:207-338 | over every run a seller's pending plus what refunds took from it is what the unsettled sales are to bring plus what settled ones were not paid |
| SettlementRuns.RunIsFunded | src/api/src/modules/wallet/wallet.service.ts:586-705 | over every run each order's seller has a wallet and no pending is negative, so the two conditions above apply to whatever a run reaches |
| SettlementRuns.WithoutRefundsAllIsPaid | src/api/src/modules/wallet/wallet.service.ts:304-338 | so in a run without refunds every order marked as settled was paid, and pending is exactly the net of the unsettled sales |
| SettlementRuns.WhenRefundKeepsBacking | src/api/src/modules/wallet/wallet.service.ts:207-298 | after any refund pending still equals the net of the unsettled sales exactly when nothing was pending |
| SettlementRuns.MarkedButUnpaid | src/api/src/modules/scheduler/auction-scheduler.service.ts:356-374 | a run from the empty tables: two buyers deposit, hold and buy, one is refunded, and the next pass marks both sales as settled and pays neither |
| Settlement.WhereSelectsTheMature | src/api/src/modules/scheduler/auction-scheduler.service.ts:306-354 | under three-valued logic the WHERE clause keeps exactly the mature orders, with or without dispute and shipment rows |
| Settlement.NullTestIsNeeded | src/api/src/modules/scheduler/auction-scheduler.service.ts:329-340 | without the null test on the joined row no order free of disputes would be selected |
| Settlement.SettlementScheduler.ReleaseMaturedSettlements | src/api/src/modules/scheduler/auction-scheduler.service.ts:356-374 | select first, then settle one transaction at a time, is the one-pass specification the runs use |
| Settlement.SettlementScheduler.SettleOne | src/api/src/modules/scheduler/auction-scheduler.service.ts:356-374 | wallet and order change together or not at all |
| Orders.ShipmentsService.Create | src/api/src/modules/shipments/shipments.service.ts:55-115 | the seller's first shipment of a paid order, or the error and nothing |
| Orders.ShipmentsService.UpdateStatus | src/api/src/modules/shipments/shipments.service.ts:134-246 | the new row as specified, or the error and nothing |
| Orders.DisputesService.Create | src/api/src/modules/disputes/disputes.service.ts:24-87 | one dispute per order, by a participant, in time, or the error and nothing |
| WalletRuns.MoneyIsConserved | src/api/src/modules/wallet/wallet.service.ts:47-705 | over every run the wallets hold what the ledger says came in minus what went out, plus one cent per commission on a half cent, plus what reversals of sales to oneself made, which is the part of the price pending did not cover |
| WalletRuns.LedgerTellsEveryBalance | src/api/src/modules/wallet/wallet.service.ts:47-705 | over every run: if each reversal of a sale to oneself was covered by pending, each ledger row starts where its wallet's previous one ended and the last is the balance; if one was not, the history is broken for good |
| WalletRuns.WhenReversalConserves | src/api/src/modules/wallet/wallet.service.ts:207-298 | a reversal makes no money exactly when buyer and seller differ or pending covers it |
| WalletRuns.SelfSaleMakesMoney | src/api/src/modules/wallet/wallet.service.ts:207-298 | a run of a deposit, a hold, a sale to oneself and its reversal, after which the wallet holds ten more than the ledger accounts for |
| WalletRuns.ReversalToOneselfBreaksTheLedger | src/api/src/modules/wallet/wallet.service.ts:207-298 | between one and the same person the ledger stays a history when pending covers the price, and two of its rows contradict each other otherwise |
| WalletRuns.WhenAnOperationMakesDebt | src/api/src/modules/wallet/wallet.service.ts:233-260 | in any state, debts included, an operation makes or deepens a debt if and only if it reverses a sale between two people, the debt is the seller's, and a part of the price is uncovered |
| WalletRuns.ApplyKeepsSolvent | src/api/src/modules/wallet/wallet.service.ts:233-260 | so a bank in which nothing is negative stays so if and only if no reversal between two people leaves a part uncovered |
| WalletRuns.FundsNeverNegative | src/api/src/modules/wallet/wallet.service.ts:47-705 | over every run, whatever the debts, held and pending funds never go below zero |
| WalletRuns.SingleWritesOneRow | src/api/src/modules/wallet/wallet.service.ts:59-577 | every operation on one wallet fails, at most creates the wallet, or writes one row that says what moved |
| WalletOutcomes.SaleFromHoldToPayout | src/api/src/modules/wallet/wallet.service.ts:304-705 | from the hold to the payout the buyer is out of the price and the seller has the net to spend, and nothing else of the two moved |
| WalletOutcomes.HoldThenRelease | src/api/src/modules/wallet/wallet.service.ts:472-577 | releasing what was held goes through and restores every wallet |
| WalletOutcomes.WithdrawThenRefund | src/api/src/modules/wallet/wallet.service.ts:145-168 | refunding a withdrawal restores every wallet |
| WalletOutcomes.DepositThenWithdraw | src/api/src/modules/wallet/wallet.service.ts:343-467 | what was deposited can be withdrawn at once |
| WalletOutcomes.RowsExplainBalances | src/api/src/modules/wallet/wallet.service.ts:145-705 | over every run each ledger row moves its balance by its amount, in the direction of its kind |
| WalletOutcomes.DepositAdds | src/api/src/modules/wallet/wallet.service.ts:343-411 | what a deposit moves, and when it is refused |
| WalletOutcomes.WithdrawalTakes | src/api/src/modules/wallet/wallet.service.ts:416-467 | what a withdrawal moves, and each refusal |
| WalletOutcomes.WithdrawalReturns | src/api/src/modules/wallet/wallet.service.ts:145-168 | what its refund moves |
| WalletOutcomes.HoldSetsAside | src/api/src/modules/wallet/wallet.service.ts:472-526 | what a hold moves, and each refusal |
| WalletOutcomes.ReleaseGivesBack | src/api/src/modules/wallet/wallet.service.ts:531-577 | what a release moves, and each refusal |
| WalletOutcomes.SettlementPaysOut | src/api/src/modules/wallet/wallet.service.ts:304-338 | what a settlement moves, and that it does nothing where too little is pending |
| WalletOutcomes.CaptureSells | src/api/src/modules/wallet/wallet.service.ts:586-705 | what a sale moves, with its three rows |
| WalletOutcomes.ReversalTransfers | src/api/src/modules/wallet/wallet.service.ts:207-298 | what a reversal between two people moves, with its two rows |
| Wallets.ReversalSources | src/api/src/modules/wallet/wallet.service.ts:233-260 | pending is exhausted before the balance is touched, neither gives more than it has, and a part stays uncovered exactly when both together are too little |
| Wallets.WalletService.GetWallet | src/api/src/modules/wallet/wallet.service.ts:59-61 | an inactive wallet where there was none, and otherwise nothing |
| Wallets.WalletService.Deposit | src/api/src/modules/wallet/wallet.service.ts:343-411 | wallets, ledger and error as specified |
| Wallets.WalletService.Withdraw | src/api/src/modules/wallet/wallet.service.ts:416-467 | wallets, ledger and error as specified |
| Wallets.WalletService.RefundWithdrawal | src/api/src/modules/wallet/wallet.service.ts:145-168 | wallets, ledger and error as specified |
| Wallets.WalletService.HoldFunds | src/api/src/modules/wallet/wallet.service.ts:472-526 | wallets, ledger and error as specified |
| Wallets.WalletService.ReleaseFunds | src/api/src/modules/wallet/wallet.service.ts:531-577 | wallets, ledger and error as specified |
| Wallets.WalletService.CaptureHeldFunds | src/api/src/modules/wallet/wallet.service.ts:586-705 | buyer's hold to seller's pending, with three ledger rows, or the error |
| Wallets.WalletService.ReleaseSettlement | src/api/src/modules/wallet/wallet.service.ts:304-338 | pending to balance, or silently nothing when too little is pending |
| Wallets.WalletService.ReverseSale | src/api/src/modules/wallet/wallet.service.ts:207-298 | the two-step reversal as specified, over the buyer's balance read first |
| Commissions.CommissionAndNet | src/api/src/modules/commissions/commissions.service.ts:56-59 | in exact arithmetic commission plus net is the gross, one cent over exactly on a half cent; both lie between 0 and the gross |
| Commissions.ExtraCent | src/api/src/modules/scheduler/auction-scheduler.service.ts:140-143 | a sale on which the extra cent appears |
| WalletOutcomes.CommissionIsNearest | src/api/src/modules/commissions/commissions.service.ts:56-59 | commission and net are each the nearest cent to their share of the price, halves going up |
| WalletOutcomes.RateFallsBack | src/api/src/modules/commissions/commissions.service.ts:112-122 | the seller's own rate, else the global one, else ten per cent |
| Commissions.CommissionsService.RecordForOrder | src/api/src/modules/commissions/commissions.service.ts:33-74 | one record per order, never changed later |
| Commissions.CommissionsService.UpsertGlobalRate | src/api/src/modules/commissions/commissions.service.ts:137-151 | afterwards every seller without a rate of their own, and no other, resolves to it |
| Commissions.CommissionsService.UpsertSellerRate | src/api/src/modules/commissions/commissions.service.ts:153-172 | afterwards that seller, and no other, resolves to it |
| Sessions.AcceptedTokens | src/api/src/modules/auth/auth.service.ts:330-443 | after any run with fresh tokens a token is accepted exactly when it is the current one of a usable session, or its previous one no later than the grace after the rotation that retired it; a success returns a current token and a replay changes nothing |
| Sessions.RetiredTokensDie | src/api/src/modules/auth/rotation-grace.ts:47-63 | no replay extends the grace window of a retired token |
| Sessions.RevokedForever | src/api/src/modules/auth/auth.service.ts:330-443 | after a revocation neither token of the session is accepted in any later run |
| Sessions.ReuseLocksOut | src/api/src/modules/auth/auth.service.ts:380-420 | reuse after the grace locks both tokens out for good |
| Sessions.ExpiryIsFixed | src/api/src/modules/auth/auth.service.ts:897-911 | no chain of refreshes outlives the expiry set at login |
| Sessions.LogoutEnds | src/api/src/modules/auth/auth.service.ts:486-502 | logout with a token ends the session exactly when the token is not a retired one; without a token always |
| Sessions.LogoutWithRetiredToken | src/api/src/modules/auth/auth.service.ts:486-502 | a run of a login, a rotation and a logout with the token rotated out, after which the current token is still accepted |
| Sessions.RunIsTidy | src/api/src/modules/auth/auth.service.ts:337-345 | along every run tokens are unique across sessions and retirement times are those of the rotation |
| Sessions.WhatARefreshWrites | src/api/src/modules/auth/auth.service.ts:330-443 | every field a refresh writes, on the one row that knows the token |
| Sessions.WhyARefreshFails | src/api/src/modules/auth/auth.service.ts:358-372 | an expiry or a barred user is said exactly of a session not revoked |
| Sessions.WhatALoginAdds | src/api/src/modules/auth/auth.service.ts:897-911 | one row, on its own token, good for exactly its lifetime |
| Sessions.WhatALogoutRevokes | src/api/src/modules/auth/auth.service.ts:486-502 | the user's session of that current token, or all the user's live ones, and no others |
| Sessions.AuthService.RefreshToken | src/api/src/modules/auth/auth.service.ts:330-443 | the rows and the answer are those of `Refreshed` |
| Sessions.AuthService.GenerateTokens | src/api/src/modules/auth/auth.service.ts:897-911 | one session is added, with its own expiry |
| Sessions.AuthService.Logout | src/api/src/modules/auth/auth.service.ts:486-502 | the rows are those of `LoggedOut` |
| Auctions.BidsClimb | src/api/src/modules/bids/bids.service.ts:58-144 | over every run the first accepted bid tops the starting price and each later one the bid before by at least the increment then in force, consecutive bidders differ, and the top-by-amount query returns the last bid, at the current price |
| Auctions.OneOrderPerSoldLot | src/api/src/modules/scheduler/auction-scheduler.service.ts:107-183 | there is an order exactly when the lot is closed with a bid; then exactly one, for the last bidder at their amount |
| Auctions.ClosedByOneStep | src/api/src/modules/scheduler/auction-scheduler.service.ts:107-183 | a run closes a lot at one step, no earlier than its end, and sells it there to the last bidder, for its seller, at the last amount, less the commission at that step's rate to within half a cent |
| Auctions.WhenALotCloses | src/api/src/modules/scheduler/auction-scheduler.service.ts:107-183 | a lot closes exactly when it is active, past its end, and without a bid or with its sale written |
| Auctions.WhenALotStarts | src/api/src/modules/scheduler/auction-scheduler.service.ts:83-98 | a lot starts exactly when it is published and its start has come |
| Auctions.WhenABidIsAccepted | src/api/src/modules/bids/bids.service.ts:58-144 | on every lot a run reaches, which bids are accepted, if and only if, and every field an accepted one leaves |
| Auctions.WhyABidIsRefused | src/api/src/modules/bids/bids.service.ts:58-101 | what each refusal says of the bid |
| Auctions.ClosedForGood | src/api/src/modules/bids/bids.service.ts:58-65 | nothing changes a closed lot |
| Auctions.SoftClose | src/api/src/modules/bids/bids.service.ts:111-120 | right after an accepted bid the end is at least a whole window away; it moved exactly when it was nearer, and then by exactly a window |
| Auctions.EndNeverRetreats | src/api/src/modules/bids/bids.service.ts:122-144 | over every run the end never comes nearer and accepted bids are never removed |
| Auctions.NoBidAfterTheEnd | src/api/src/modules/bids/bids.service.ts:62-65 | in any run whose bids all come after the end, no bid is accepted and neither price nor end moves, whatever the scheduler does |
| Auctions.WhenTheSellerMayBid | src/packages/core/src/domain/bid/bid-validation.ts:22-43 | on every lot a run reaches, where a stranger's bid would pass the seller's passes exactly when the lot is still PUBLISHED; so a seller who got in once cannot bid again |
| Auctions.SellerBidsOnTheirOwnLot | src/api/src/modules/bids/bids.service.ts:67-83 | a bid of the seller on their own published lot is accepted |
| Auctions.Top | src/api/src/modules/bids/bids.service.ts:48-56 | the highest bid, and the earliest of those equal to it |
| Auctions.BidsService.PlaceBid | src/api/src/modules/bids/bids.service.ts:43-233 | the lot after it is `BidPlaced`, and the error is `Refusal`, in the order the code raises them |
| Auctions.AuctionScheduler.StartScheduledAuctions | src/api/src/modules/scheduler/auction-scheduler.service.ts:83-98 | every due published lot becomes active and nothing else changes |
| Auctions.AuctionScheduler.CloseExpiredAuctions | src/api/src/modules/scheduler/auction-scheduler.service.ts:107-183 | every expired active lot is closed or sold when its transaction commits, and nothing else changes |
| Locks.MutualExclusion | src/api/src/common/redis/distributed-lock.service.ts:74-130 | two instances are inside one key together only if one has stayed past its time to live |
| Locks.StaleReleaseIsHarmless | src/api/src/common/redis/distributed-lock.service.ts:103-130 | along every timely run with fresh tokens, an instance coming out, however late, leaves in the store the live entry of any other instance still within its time, under that one's token |
| Locks.TimelyReleaseFrees | src/api/src/common/redis/distributed-lock.service.ts:103-130 | a release in time frees the lock |
| Locks.OverstayingIsShared | src/api/src/modules/scheduler/auction-scheduler.service.ts:38-78 | a run in which an instance that overstays shares the section |
| Locks.RunIsGuarded | src/api/src/common/redis/distributed-lock.service.ts:74-92 | along every timely run whoever is within its time is the one the store names, under a token of its own |
| Locks.WhenAnInstanceGoesIn | src/api/src/common/redis/distributed-lock.service.ts:74-92 | in exactly when no entry of the key lives, and then for exactly its time |
| Locks.WhenAnInstanceComesOut | src/api/src/common/redis/distributed-lock.service.ts:103-130 | its entry is removed exactly when it lives and is its own; no other ever is |
| Locks.DistributedLockService.AcquireLock | src/api/src/common/redis/distributed-lock.service.ts:74-92 | set only when absent or expired |
| Locks.DistributedLockService.ReleaseLock | src/api/src/common/redis/distributed-lock.service.ts:103-130 | removed only when live and under the caller's token |
| LogIndexFacts.RewriteKeepsText | src/api/scripts/indice-de-estado.ts:192-224 | any text without the mark, followed by the index of any log whatever, worded in any way, is rewritten to that very text followed by its own index |
| LogIndexFacts.WhenRewritingIsIdempotent | src/api/scripts/indice-de-estado.ts:192-224 | for every log the command accepts, a second run changes nothing if and only if the log has no mark that lacks a separator before it and has text after it |
| LogIndexFacts.LooseMarkGrows | src/api/scripts/indice-de-estado.ts:196-197 | with such a mark every run makes the file longer |
| LogIndexFacts.MarkAloneIsLoose | src/api/scripts/indice-de-estado.ts:196-197 | the smallest such file, which a second run changes again |
| LogIndexKept.NoEntryIsLost | src/api/scripts/indice-de-estado.ts:192-224 | whatever file the command accepts, every entry of the lines above the mark's own, or of the whole file where there is no mark, is in the file it writes, with the same ids and title on the same line |
| LogIndexFacts.IndexKeepsEntries | src/api/scripts/indice-de-estado.ts:210-222 | where a separator precedes the mark, what is kept has exactly the entries written above the mark, up to the mark itself |
| LogIndexKept.PaddedSurvives | src/api/scripts/indice-de-estado.ts:197-197 | cutting trailing white space loses no entry |
| LogIndexFacts.AppendOnly | src/api/scripts/indice-de-estado.ts:62-120 | appending lines keeps each entry's ids, title, line and closing line; a new closing line is a new line; a status changes only from none, for an entry whose window the end of the log cut short |
| LogIndexFacts.ClosingLine | src/api/scripts/indice-de-estado.ts:98-117 | an entry's closing line is the first later line that closes everything or is a closure naming it, and it has one exactly when there is such a line |
| LogIndexFacts.ShownState | src/api/scripts/indice-de-estado.ts:127-130 | an entry is shown open exactly when it was declared open and no later line closes it; the state shown differs from the declared only as CLOSED over an open one |
| LogIndexMeaning.WhatCloses | src/api/scripts/indice-de-estado.ts:98-117 | said of the text: a later line closes an entry by one of four phrases, or by one of three words together with one of the entry's ids standing whole in it, capitals aside |
| LogIndexMeaning.NamedMeans | src/api/scripts/indice-de-estado.ts:101-101 | a line names exactly the ids that stand in it with all their digits |
| LogIndexMeaning.DeclaredStatus | src/api/scripts/indice-de-estado.ts:72-92 | an entry's status is that of the first of the next eleven lines declaring one before any section, or says that none does |
| LogIndexMeaning.HeadingIsRead | src/api/scripts/indice-de-estado.ts:68-71 | a heading is read as it is written: its ids in order and its title |
| LogIndexMeaning.StatusAtStart | src/api/scripts/indice-de-estado.ts:87-87 | a status at the start of a line is read |
| LogIndexMeaning.StatusAfterBar | src/api/scripts/indice-de-estado.ts:87-87 | and one after the first bar |
| LogIndexMeaning.CountsAreRight | src/api/scripts/indice-de-estado.ts:161-162 | the counts shown are numbers of entries |
| LogIndexMeaning.WhatTheIndexSays | src/api/scripts/indice-de-estado.ts:159-190 | what is counted where, and that every entry has its row |
| LogIndexMeaning.RowPerEntry | src/api/scripts/indice-de-estado.ts:164-168 | one row an entry, in order |
| LogIndexMeaning.RowIs | src/api/scripts/indice-de-estado.ts:164-168 | the row of an entry, with both its states and its closing line |
| LogIndexFacts.SplitAppend | src/api/scripts/indice-de-estado.ts:63-63 | splitting into lines distributes over a line break |
| LogIndex.Analizar | src/api/scripts/indice-de-estado.ts:62-120 | the nested loops compute the described analysis |
| LogIndex.ReadEntries | src/api/scripts/indice-de-estado.ts:67-95 | the first loop collects the entries, each with the first status in its window |
| LogIndex.CloseWith | src/api/scripts/indice-de-estado.ts:98-117 | one line closes exactly the entries it may, never one already closed |
| LogIndex.FirstClosure | src/api/scripts/indice-de-estado.ts:106-116 | the least closing line, or none when no line closes the entry |
| Clabe.IsValidClabe | src/api/src/modules/wallet/clabe.util.ts:5-18 | the loop accepts exactly the eighteen digits, trimmed, whose weighted sum is a multiple of ten |
| Clabe.SumWrittenOut | src/api/src/modules/wallet/clabe.util.ts:10-17 | the eighteen digits with their weights, written out |
| Clabe.KnownClabe | src/api/src/modules/wallet/clabe.util.ts:5-18 | a known account number is valid, and with another last digit is not |
| Clabe.OneCheckDigit | src/api/src/modules/wallet/clabe.util.ts:10-17 | every 17-digit prefix has exactly one valid completion |
| Clabe.OneWrongDigitIsDetected | src/api/src/modules/wallet/clabe.util.ts:10-17 | changing any one digit of a valid CLABE makes it invalid |
| Clabe.WhenASwapGoesUnnoticed | src/api/src/modules/wallet/clabe.util.ts:10-17 | swapping any two neighbours, the check digit included, goes unnoticed exactly when they are equal or five apart |
| RedactionFacts.NotedIsReached | src/api/src/modules/payments/payment-trace.service.ts:156-182 | a place is listed exactly when it is the first sensitive key on a way within the depth limit |
| RedactionKeys.TheWords | src/api/src/modules/payments/payment-trace.service.ts:56-71 | a key is sensitive exactly when one of the eleven words stands in it, in capitals or not, with anything around it |
| RedactionKeys.SensitiveMeans | src/api/src/modules/payments/payment-trace.service.ts:174-174 | the same of the list of words, whatever it is, letter by letter |
| RedactionKeys.FieldWithAWord | src/api/src/modules/payments/payment-trace.service.ts:172-176 | within the depth limit a field under such a key is written with the mark, and its place noted |
| RedactionKeys.FieldWithoutAWord | src/api/src/modules/payments/payment-trace.service.ts:177-179 | a leaf under any other key is written as it is, and not noted |
| RedactionKeys.PathOfStep | src/api/src/modules/payments/payment-trace.service.ts:160-173 | the path of a member and of an item, from its parent's |
| RedactionKeys.AuthorizationIsMarked | src/api/src/modules/payments/payment-trace.service.ts:156-182 | a header with a capital is marked |
| RedactionFacts.NotedOnceInOrder | src/api/src/modules/payments/payment-trace.service.ts:156-182 | the list follows the traversal strictly, so nothing is listed twice |
| RedactionFacts.ReachedIsMarked | src/api/src/modules/payments/payment-trace.service.ts:170-178 | every listed place holds the mark afterwards |
| RedactionFacts.ElsewhereUntouched | src/api/src/modules/payments/payment-trace.service.ts:156-182 | every place with no sensitive key on its way holds the redaction of what it held, with its shape |
| RedactionFacts.RedactKeepsShape | src/api/src/modules/payments/payment-trace.service.ts:156-182 | same kind, same length, same keys, those of an object without a plain form included; leaves as they were; a plain form taken over as it is |
| RedactionFacts.WhenRedactionIsIdempotent | src/api/src/modules/payments/payment-trace.service.ts:156-182 | redacting twice gives the same value and the same places as once exactly when every plain form taken over on the way is clean |
| RedactionFacts.PlainFormKeepsASecret | src/api/src/modules/payments/payment-trace.service.ts:188-198 | a token in an object's plain form is written unmarked |
| RedactionFacts.PlainFormIsKept | src/api/src/modules/payments/payment-trace.service.ts:188-198 | whatever the sensitive key and the text under it, a plain form holding them is written as it is, and redacting again would change it |
| Redaction.RedactValue | src/api/src/modules/payments/payment-trace.service.ts:156-182 | the recursion writes the redaction and appends one rendered path per listed place, in order |
| Redaction.RedactEntry | src/api/src/modules/payments/payment-trace.service.ts:170-178 | one field: marked and listed, or traversed |

## Left out

- Provider adapters and their signatures, webhook queues and back-off, notifications, audit events,
  metrics, mail, uploads, tax documents, the CMS, the administration panel and every user interface.
- The histogram and its percentiles are not modelled.
- Administrator overrides (force close, moderation, reopening, resuming) and the retention purge of
  reservations; after a purge nothing here says that a payment is not credited again.
- PaymentInterleaving.AtMostOneDepositPerPayment: counted per payment, since per reference it is false
  when two payments race (`TwoPaymentsMayBothBePaid`); one at a time, `AtMostOneDepositPerReference`.
- Concurrent refreshes of one session, concurrent bids on one lot and concurrent settlement passes:
  the source reads before it locks, or takes no lock, and each is one step here.
- Holding and releasing the funds of bids across a rejected bid, an outbid bidder or a close: whether
  the hold and the capture succeed are parameters, and no conservation is claimed for them.
- `providerRef`, event formats, the texts of anomalies and errors, and everything logged or traced.
- Floating-point rounding, clock skew, and environment parsing.
- Case folding beyond ASCII and Latin-1, and cyclic values in a trace.
- `bloquesDeCierre`, the console output and the exit code of the index command.
- The fixed sentences and column titles of a generated index are parameters of it.
- LogIndex.Analizar: each line is read once into what it says of headings, statuses and closures,
  where the source matches its patterns inside the two loops.
- Redaction.RedactValue: keys that change how an object is built when assigned are ordinary keys.
