# Orders, settlements and repository state: a verified model

This project models the transactional core of a marketplace back end (order
creation, payment settlement, the notification outbox and its dispatcher, the
money arithmetic underneath) and the repository-state tool that ships with it,
and proves what they promise. `dafny verify dfyconfig.toml` checks all of it.

How the parts fit together:

- **Money** (`Decimal`, `Money`, `MoneyText`, `MoneyFloats`, `OrderPricing`): the decimal parser and
  printer on exact integers, then the same code on IEEE doubles. Rounding is a
  parameter of which only three facts are used: it is monotone, exact on
  integers up to 2^53, and off by at most one part in 2^53. The doubles refine
  the integers wherever the NUMERIC(12,2) guard lets an order through.
- **Tables and settlement** (`Tables`, `Settlement`, `OrderCreation`, `Consistency`): the
  database as maps, the settlement transaction as a list of SQL statements with
  one function that says what a statement reads and writes, and the invariant
  (`Good`) both transactions keep.
- **Records** (`SettlementRecord`, `CreationRecord`, `CollectedRecord`, `StepRecord`,
  `InvariantRecord`): what a settlement, an order creation and a collection answer and
  write, every field of every row, told over the tables and the request alone; what every
  step of the machines below may change; and what the invariants say of a database. The
  functions and predicates the other modules use are proved to say exactly that.
- **Services** (`Services`, `StoreLemmas`, `NoticeTexts`): the same services as a class whose methods
  overwrite table fields, proved equal to the functions, exceptions and
  rollback included.
- **Serial runs** (`SerialRuns`, `SerialFacts`): whole transactions one after another, with
  any duplicated, reordered or mispriced notices, catalog edits and dispatcher
  activity in between.
- **Interleaved runs** (`Interleaving`, `InterleavedRuns`, `Replays`, `ReplayChains`, `Refinement`): any
  number of settlement transactions, statement by statement, under READ
  COMMITTED, with row locks, unique waits and aborts. The update of the one
  payment row of an order acts as the order's mutex; the invariant says that a
  session's uncommitted writes are what its statements would write if run now.
  A transaction that runs alone ends where the serial step ends.
- **Dispatcher** (`Dispatching`, `DispatchRuns`, `DispatcherFleet`, `FleetBatches`, `OutboxDelivery`):
  one dispatcher (draining, no starvation), many with crashes, a batch as a run of the fleet,
  and the dispatcher over the outbox the settlements wrote.
- **Repository state** (`RepoState`, `PhaseEvidence`, `JsonSchema`, `StatusRendering`, `EventPaths`,
  `PathText`, `Publication`, `PublishedTrees`, `FlatBatches`, `PublicationRuns`, `Collecting`, `CollectedInputs`): merging
  reports, checking candidates, rendering, and the published directory as a tree of
  paths: staging events whose ids are paths, the exchange, failures before and after
  it, and the verifier that reads the tree back.
- **Small algorithms** (`RateLimiting`, `SessionTokens`, `UnitOfWork`, `ImportStyle`, `ImportText`,
  `ImportLogic`, `ScannerLaws`, `Splitting`).

## Where a promise does not hold

The code is modelled as it is. These documented promises fail. For each there is a
witness, and a lemma that says for all inputs exactly when the promise holds:

- "A replayed webhook is a no-op" and "the database constraint rejects the loser"
  (api/src/payment/payment.repository.ts:68-75): two deliveries of one notice
  that both pass their reads update the same payment row, so UNIQUE has nothing
  to reject and both are applied (`Replays.ConcurrentReplay`). A decided order
  can still change exactly when an open transaction chose it while it was
  pending and its reference is free or can be freed
  (`ReplayChains.ReplayPossibleExactly`), and a commit is the serial step exactly
  while its row is pending (`Refinement.CommitIsSerialExactly`). In serial runs the
  promise holds (`SerialRuns.ReplaysChangeNothing`).
- "Each claims a disjoint set" (api/src/notification/notification.repository.ts:65-70):
  claim locks end with the claim transaction and `markFailed` does not look at the
  status, so a row can be sent twice and return to pending after it was marked
  sent (`DispatcherFleet.ClaimsOverlap`). `DispatcherFleet.SentAgainExactly` says
  when a row can be sent again; `DispatcherFleet.AtMostOnce` is what one careful
  dispatcher guarantees.
- The verifier agrees with what a successful command published, and published events
  are never overwritten (tools/repo_knowledge/core.py:411-415). A carriage return in a
  summary comes back from STATUS.md as a line feed
  (`CollectedInputs.CarriageReturnInSummary`); an event id is used as a path, so a run
  attempt with `..` in it can overwrite the staged project.yaml
  (`CollectedInputs.AttemptOverwritesProject`) or an earlier event
  (`PublicationRuns.EarlierEventOverwritten`); and publishing falls back to the tool's own
  schemas where the verifier fails without them (`PublicationRuns.MissingSchemas`).
  `PublishedTrees.CleanExactly` and `PublishedTrees.HarmlessExactly` give the exact
  conditions for one publication, `Collecting.CollectedCleanExactly` in terms of the
  command's arguments and the recorded state, and `PublicationRuns.VerifierAgreesExactly`
  for whole runs.
- A failed command leaves the published directory alone, except when it fails after the
  exchange, while the old directory is removed or the result printed
  (`PublicationRuns.FailureAfterExchange`, `PublicationRuns.FailedCommandExactly`).
- Repeating a collection returns its own output, except when an observation time
  is given empty or the recorded branch is not the checked-out one
  (`RepoState.RetryExactly`, with `RepoState.EmptyTimeRefusesRetry` and
  `RepoState.BranchSlipChangesRetry` as the two witnesses), or its own publication
  changes how a phase is judged (`PhaseEvidence.PublicationCompletesPhase`,
  `RepoState.RetryWithPhasesExactly`, `PhaseEvidence.JudgedAgainExactly`).
- A returned `withTransaction` has committed its work, except when a rejected query
  was reached and the exception swallowed: then the COMMIT commits nothing
  (`UnitOfWork.SwallowedRejection`, `UnitOfWork.ReturnedCallCommitsExactly`).
- The schema note says the standard advance cap is `round(total * 0.10, 2)`
  (docs/data-model/phase-1-schema.sql:259); the code floors, and so does the model
  (`OrderPricing.CapFlooredNotRounded`, `OrderPricing.CapAsDocumentedExactly`).
- The phase loop promises the open phase after the active one as "next"
  (tools/repo_knowledge/core.py:120-124); when that one has no name the answer is none
  (`RepoState.UnnamedPhaseHidesNext`, `RepoState.NextAsDeclaredExactly`).
- A request accepts any quantity from one up, and the item's column holds an INTEGER: a
  larger quantity is priced and then refused by the insert, and everything is rolled back
  (`OrderCreation.LargeQuantityRefused`, `OrderCreation.QuantityPastColumn`,
  `OrderCreation.OrderAcceptedExactly`).
- Joining an import "cannot alter logic" (tools/fix_imports.py:3-4). It does when a `//`
  comment stands inside the braces before more code (`ImportLogic.CommentAltersLogic`),
  when a line is blank (`ImportLogic.BlankLineAltersLogic`), and when the last name shares
  the closing line (`ImportLogic.SharedCloserAltersLogic`). `ImportLogic.FixKeepsLogicExactly`
  has the exact condition for every file, commas and block comments included, and
  `ImportLogic.OneNameExactly` spells it out for one name to a line.
- The answer of the rate limiter tells the seconds left of the window, except in its last
  half second, when it tells the whole window
  (`RateLimiting.ResetIsTimeLeftExactly`; any hit with 499 milliseconds left is a witness).

## Model

| member | source | states |
|---|---|---|
| Money.ParseExactly | api/src/common/money.ts:35-64 | a string is accepted as p exactly when, trimmed, it is a well-formed decimal denoting p hundredths and p is a safe integer; no other string is accepted and no other value returned |
| Money.PrintIsCanonical | api/src/common/money.ts:67-82 | the printer prints exactly the amounts NUMERIC(12,2) holds, in canonical form, and what it prints parses back |
| Money.RoundTrip | api/src/common/money.ts:35-82 | parsing inverts printing for every amount up to 999999999999 poisha either way |
| Money.CanonicalRoundTrip | api/src/common/money.ts:35-82 | printing inverts parsing on every canonical text |
| Money.PrintAfterParse | api/src/common/money.ts:35-82 | printing what was parsed gives the canonical text of that value, the only one |
| Money.SumIsTotal | api/src/common/money.ts:107-115 | a sum of one amount is that amount, and of two lists put together the sum of their sums |
| MoneyText.WellFormedExactly | api/src/common/money.ts:38 | the texts the parser looks further at are exactly an optional minus, digits, and a point with digits or none, each split into those parts |
| MoneyText.Trimmed | api/src/common/money.ts:36 | trimming takes exactly the whitespace at both ends |
| MoneyText.RefusedExactly | api/src/common/money.ts:38-59 | no decimal, a digit other than zero past the second decimal, and past the safe integers are told apart |
| MoneyText.PercentageExactly | api/src/common/money.ts:94-104 | a percentage is the largest whole amount not above it, for percents from zero to a hundred and no others |
| MoneyFloats.ParseRefines | api/src/common/money.ts:35-64 | the parser on doubles returns what the exact parser returns, and fails when it fails |
| MoneyFloats.PrintRefines | api/src/common/money.ts:67-82 | the printer on a double that stands for a non-negative integer prints the exact text, and rejects everything past the NUMERIC(12,2) range |
| MoneyFloats.FloatRoundTrip | api/src/common/money.ts:35-82 | on doubles too, parsing inverts printing for every amount up to 999999999999 poisha either way |
| MoneyFloats.PercentageRefines | api/src/common/money.ts:94-104 | dividing and flooring doubles gives the exact integer floor of amount times percent over 100, for amounts of either sign, and fails on the same percentages, while the product is within 2^53 |
| MoneyFloats.FractionsRefused | api/src/common/money.ts:67-115 | a double that is no integer is refused by printing, percentages and sums |
| MoneyFloats.SumRefines | api/src/common/money.ts:107-115 | a sum of doubles is the exact sum, or the exact sum is past 2^53 and the result is at least 2^53 |
| MoneyFloats.PricingIsExact | api/src/order/order.service.ts:121-158 | an order is priced on doubles exactly when it is priced on integers, with the same subtotal, total, cap and texts; every run in which a partial result left the exact range is rejected |
| OrderPricing.CapIsLegal | api/src/order/domain/advance-cap.ts:86-120 | the cap is the total for escrow or an all-ready cart, else the largest c with 100c at most 10 times the total |
| OrderPricing.CapAsDocumentedExactly | api/src/order/domain/advance-cap.ts:86-120 | the cap is the rounded tenth the schema notes describe exactly when the whole total is allowed or its last digit does not round up, and never more |
| OrderPricing.CapFlooredNotRounded | docs/data-model/phase-1-schema.sql:259 | on a total of five poisha that is not all ready the code caps at nothing, the note at one poisha |
| OrderPricing.PricedBasis | api/src/order/order.service.ts:121-158 | an accepted order has total = subtotal + fee, a legal cap, 0 <= advance <= cap <= total, no advance for COD, and texts that read back as those amounts |
| OrderPricing.PricedExactly | api/src/order/order.service.ts:121-158 | an order is priced exactly when the cart has lines, the request is between zero and the legal cap, zero for COD, and every amount fits NUMERIC(12,2) |
| Tables.KeyTextDecodes | api/src/notification/notification.adapter.ts:46-60 | a dedupe key has one meaning, even when the aggregator's reference contains colons |
| Tables.TextTableInsert | api/src/notification/notification.repository.ts:45-63 | inserting on conflict do nothing by key text does to the table of texts what inserting by meaning does, so the outbox may be keyed by meaning |
| NoticeTexts.PolicyIs | api/src/notification/domain/channel-policy.ts:40-64 | a one-time password goes by SMS alone and every other event by push and by SMS, each under its template |
| NoticeTexts.KeyTextExactly | api/src/notification/notification.adapter.ts:58 | a dedupe key is, between colons, what happened to which reference or order and the channel, and splitting it at the colons gives these parts back |
| NoticeTexts.EnqueuedExactly | api/src/notification/notification.adapter.ts:45-60 | afterwards exactly the channels of the event have a row under their key, new ones with the user's number and language, the event's template and no attempt; no other row is touched |
| Settlement.TransitionPart | api/src/order/order.adapter.ts:63-81 | after the payment update, the event records the status the order had and the order moves to the target status |
| Settlement.BodyEffect | api/src/payment/payment.service.ts:111-183 | the statement list run on a fitting row never fails and changes exactly one payment row, one order row, one appended event, the missing outbox rows, and the clock of a first settled advance; the answer carries the stamped deadline |
| SettlementRecord.AnswersExactly | api/src/payment/payment.service.ts:77-184 | the complete table of answers; and for an applied notice every column written: payment status, reference, settlement time, order status and clock, the appended event, and the texts of both messages |
| SettlementRecord.CommitChanges | api/src/payment/payment.service.ts:111-183 | any commit of the interleaved machine writes those columns, on the database of that moment |
| OrderCreation.ResolvedInOrder | api/src/catalog/catalog.adapter.ts:45-64 | cart lines resolve exactly when each does, in request order, each to its own listing |
| OrderCreation.RowOrderIrrelevant | api/src/catalog/catalog.adapter.ts:37-65 | the resolved cart does not depend on the order or repetition of the rows the query returns |
| OrderCreation.AssertCartIsOrderable | api/src/order/order.service.ts:220-246 | the loop answers the first problem of the first line that has one, and none exactly when no line has one |
| OrderCreation.OrderAcceptedExactly | api/src/order/order.service.ts:84-202 | an order is created exactly when every line resolves and may be ordered from this merchant, the merchant is active, verified and has a pickup address, the request is priceable, every quantity fits its column, and the keys and the customer are good |
| CreationRecord.AcceptedExactly | api/src/order/order.service.ts:84-246 | over catalog rows and request lines: an order is created exactly when every listing exists, is active, unrestricted, needs no licence, is this merchant's and has the stock, every quantity is at least one and fits its column, the merchant may sell, the advance is within the cap, the amounts are in range, and the keys and the customer are good |
| CreationRecord.VerdictExactly | api/src/catalog/catalog.adapter.ts:37-65 | which refusal a request gets: the first in the order of the checks |
| CreationRecord.WroteExactly | api/src/order/order.service.ts:148-202 | an accepted request writes the order, item, event, payment and message rows given column by column over the catalog and the request |
| OrderCreation.QuantityPastColumn | docs/data-model/phase-1-schema.sql:214 | a planned order under a fresh key for a known customer is refused with the range error exactly when some quantity is past the INTEGER column |
| OrderCreation.LargeQuantityRefused | docs/data-model/phase-1-schema.sql:214 | 2147483648 pieces of one untracked listing at 0.01, cash on delivery, are planned and priced, and refused with the range error, on every database that knows the customer |
| Consistency.CommitKeepsGood | api/src/payment/payment.service.ts:111-183 | committing a settlement keeps payment and order status in agreement, the timeline a chain ending in the status, the 5 or 10 day deadline only on advance-paid non-COD orders, one payment per order, unique references, and every notification queued, whatever the row's status was |
| Consistency.CommitKeepsClock | api/src/payment/payment.service.ts:160-176 | a stamped clock is never moved and no other order is touched |
| Consistency.CreateKeepsGood | api/src/order/order.service.ts:172-202 | creating an order keeps the same invariant |
| InvariantRecord.PaymentSays | api/src/payment/payment.service.ts:111-183 | the invariant written out for a payment: its order, method and amount, the three pairs of statuses, the reference, the clock of 432000000 or 864000000 milliseconds on advance-paid non-COD orders, and the messages queued |
| InvariantRecord.TimelineSays | api/src/order/order.repository.ts:120-139 | and for its timeline: a chain from the creation to the order's status |
| InvariantRecord.OrderSays | docs/data-model/phase-1-schema.sql:168-202 | and for an order: advance at most cap at most total at most 999999999999 poisha, exactly one payment, references unique |
| InvariantRecord.BasisSays | api/src/order/order.service.ts:121-158 | every order reached by whole transactions still stands on its items: subtotal is price times quantity, total adds the fee, and the cap is the legal one |
| InvariantRecord.MessageSays | api/src/notification/notification.adapter.ts:43-60 | every message in the outbox is true: customer, number, language, channel, template and amount |
| Services.Database.MarkSettled | api/src/payment/payment.repository.ts:76-92 | the row's status, reference and settlement time are overwritten, unless the reference is on another row; no other row changes |
| Services.Database.MarkFailed | api/src/payment/payment.repository.ts:94-106 | the row's status and reference are overwritten, unless the reference is on another row; no other row changes |
| Services.Database.FindByAggregatorRef | api/src/payment/payment.repository.ts:34-48 | a row is found exactly when one carries the reference |
| Services.Database.FindPendingForOrder | api/src/payment/payment.repository.ts:51-66 | a row is found exactly when the order has a pending one |
| Services.Database.RecordStatusEvent | api/src/order/order.repository.ts:127-139 | the event is appended and the status overwritten with its target, or nothing changes when the order is missing |
| Services.Database.TransitionStatus | api/src/order/order.adapter.ts:63-81 | the appended event goes from the status just read to the target |
| Services.Database.InsertOrder | api/src/order/order.repository.ts:70-97 | the order row is written unless its subtotal is negative, its key taken or its customer unknown, in that order of failures |
| Services.Database.InsertItems | api/src/order/order.repository.ts:99-118 | the loop appends every row, in order, unless a quantity is past the column, which fails |
| Services.Database.StampDeliveryClock | api/src/order/order.repository.ts:165-177 | both clock columns of that order are set, and nothing else |
| Services.Database.Enqueue | api/src/notification/notification.adapter.ts:28-61 | one row per channel of the event is inserted under its scoped key unless the key is there; an unknown user is an error and changes nothing |
| Services.Database.NotifyCustomer | api/src/payment/payment.service.ts:192-214 | a missing order is silently skipped, an unprintable amount or unknown user is an error, otherwise one row per channel is queued |
| Services.Database.ApplySettlement | api/src/payment/payment.service.ts:77-184 | on every database whose keys hold, answer and final tables are those of the atomic step, including rollback of every failing path |
| Services.Database.CreateOrder | api/src/order/order.service.ts:84-212 | accepts exactly what the specification accepts, writes the order, its items, its first event, its pending payment and its notifications, and leaves every table alone on error, the inserts before a failing one rolled back |
| StepRecord.ActionIs | api/src/payment/payment.service.ts:77-184 | one action of a serial run: which tables it leaves alone, and what the others become |
| StepRecord.GuardsAre | api/src/payment/payment.service.ts:79-109 | a transaction ends on a known reference, without a pending row of its order, and on a row of another amount, and else chooses a row; the database stays |
| StepRecord.StatementsAre | api/src/common/database/pg-unit-of-work.ts:33-56 | a statement moves its transaction on by one or ends it with its error, a commit makes its writes the database, an abort drops them |
| SerialRuns.DeliveryOutcome | api/src/payment/payment.service.ts:77-184 | the complete answer: duplicate exactly for a known reference, applied exactly for a payable notice, never an exception and never order_not_found; whatever is not applied leaves the database unchanged |
| SerialRuns.RunKeepsGood | api/src/payment/payment.service.ts:77-184 | every run of transactions keeps the invariant |
| SerialRuns.ReplaysChangeNothing | api/src/payment/payment.service.ts:79-93 | once a notice is applied, deleting every later delivery of its reference from the run leaves the final world identical |
| SerialRuns.AppliedAtMostOnce | api/src/payment/payment.service.ts:95-98 | in any run an order is settled or failed at most once, and never after it was decided |
| SerialRuns.AppliedNeverAgain | api/src/payment/payment.service.ts:79-98 | after a notice is applied, whatever happens in between, every other notice of its order is turned away and changes nothing |
| SerialRuns.MoneyConserved | api/src/payment/payment.service.ts:100-135 | over any run the amounts of notices answered "applied, settled" add up to the growth of the settled transactions |
| SerialRuns.PaymentWithinTotal | api/src/order/order.service.ts:182-189 | a payment never exceeds its order's total, nor an advance its cap |
| SerialFacts.ReachableIsExact | api/src/order/order.service.ts:148-202 | every reachable database has exact timelines, a true outbox, and orders that still stand on their items: subtotal is the sum of snapshot price times quantity, readiness is the conjunction of the snapshots, the cap is the legal one, advance at most cap at most total |
| SerialFacts.OutboxExact | api/src/notification/notification.adapter.ts:43-60 | a confirmation key is in the outbox for every channel exactly when its order exists, a settlement key exactly when a payment of that reference ended in that event; each row is on its channel, in its template, to the customer's number, telling the paid amount |
| SerialFacts.RunKeepsExact | api/src/payment/payment.service.ts:77-184 | the exactness is kept from any exact database on |
| SerialFacts.ItemsMatchRequest | api/src/order/order.service.ts:162-169 | item i is request line i with its quantity and the price and readiness the catalog showed, whatever order the rows came in |
| SerialFacts.OrderMatchesRequest | api/src/order/order.service.ts:148-170 | the order row carries the request's customer, merchant, location, method, fee and advance, and escrow only when enabled |
| Interleaving.PrefixFrame | api/src/payment/payment.repository.ts:76-106 | a body's statements depend only on its own payment row, order row, reference and outbox keys |
| Interleaving.StepKeepsInv | api/src/payment/payment.service.ts:77-184 | every statement, commit, abort and order creation, by any of any number of sessions, keeps committed data consistent, holders apart, and each session's writes what its statements would write now |
| InterleavedRuns.CommittedStatesConsistent | api/src/common/database/pg-unit-of-work.ts:41-50 | under every interleaving, every database ever committed satisfies the invariant |
| InterleavedRuns.CommitIsAtomic | api/src/common/database/pg-unit-of-work.ts:43-50 | whatever ran in between, a commit changes the database as running the whole body at that moment would |
| InterleavedRuns.HistoryOnlyGrows | api/src/order/order.repository.ts:120-139 | between any two moments of any run timelines are extended only at the end, a stamped clock stays, items and amounts stay, and no row disappears |
| InterleavedRuns.HolderNeverWaits | api/src/payment/payment.repository.ts:76-106 | between statements, a transaction past its payment update never waits for another |
| InterleavedRuns.WaitsExactly | api/src/payment/payment.repository.ts:76-106 | a transaction waits exactly before its payment update, and exactly for another one that has updated the same row or taken the same reference |
| InterleavedRuns.StatementSucceeds | api/src/payment/payment.service.ts:111-183 | nor does any statement of a transaction with a free reference fail |
| InterleavedRuns.RunToCommit | api/src/payment/payment.service.ts:77-184 | such a transaction can always run on to its commit, with the effect of its whole body |
| Refinement.AloneIsAtomic | api/src/payment/payment.service.ts:77-184 | from every consistent database, a transaction run alone statement by statement ends where the atomic step ends, for every notice |
| Refinement.CommitIsSerialExactly | api/src/payment/payment.service.ts:77-184 | in any interleaving a commit is the serial step of its notice if and only if its payment row is still pending at that moment |
| Replays.ConcurrentReplay | api/src/payment/payment.repository.ts:68-92 | from every consistent database with a fitting pending payment, some interleaving applies one notice twice and leaves two events |
| Replays.LaterStartCommitsFirst | docs/data-model/phase-1-schema.sql:223-231 | from every such database, some interleaving commits the event of the later transaction first, so that by transaction start the second event precedes the first |
| Replays.ClosedStaysClosed | api/src/payment/payment.repository.ts:51-66 | once a payment is decided and nobody open has chosen it, no step touches the order, its timeline or its payment again |
| ReplayChains.ReplayPossibleExactly | api/src/payment/payment.service.ts:79-98 | from every reachable state, a decided order can be changed by some continuation if and only if an open transaction chose it and its reference is free, or is on a row that an open transaction has chosen whose own reference is free or can be freed in the same way |
| ReplayChains.FreeRefsReopen | api/src/payment/payment.service.ts:79-98 | with references free, that is: if and only if an open transaction has chosen the order |
| Dispatching.Outbox.ClaimPending | api/src/notification/notification.repository.ts:71-82 | the claimed rows are pending, distinct, oldest first, at most the limit, and any pending row left out is no older and the limit is reached |
| Dispatching.Outbox.MarkSent | api/src/notification/notification.repository.ts:84-91 | the row is sent with one more attempt, whatever its status was |
| Dispatching.Outbox.MarkFailed | api/src/notification/notification.repository.ts:100-115 | the row has one more attempt and the cut-off error, and is abandoned from the fifth attempt on, else pending, whatever its status was |
| Dispatching.Outbox.DispatchBatch | api/src/notification/notification.dispatcher.ts:52-102 | one claim, each claimed row tried once in order with its answer, no other row touched, and claimed = sent + failed; if neither outcome of a row can be recorded, the batch ends there without a summary, that row and the later ones untouched |
| Dispatching.TriedExactly | api/src/notification/notification.repository.ts:84-115 | after a batch every claimed row is as its answer leaves it, column by column, and every other row is as it was |
| Dispatching.AcceptedAre | api/src/notification/notification.dispatcher.ts:61-68 | the number sent is the number of acceptances |
| DispatchRuns.CallsBounded | api/src/notification/notification.dispatcher.ts:52-102 | all batches together call gateways at most as often as pending rows had attempts left |
| DispatchRuns.DrainEnds | api/src/notification/notification.dispatcher.ts:52-102 | there are no more claiming batches than attempts left; when a batch claims nothing every row is decided, after at most five attempts, and rows decided before are untouched |
| DispatchRuns.NoStarvation | api/src/notification/notification.repository.ts:71-82 | a pending row with k pending rows not newer than it is tried by batch 5k / limit + 1 at the latest, whatever the gateways answer and whatever newer rows arrive |
| DispatcherFleet.ReachableHonest | api/src/notification/notification.dispatcher.ts:73-102 | from an empty outbox, with any number of dispatchers and crashes anywhere: sent implies accepted by a gateway, abandoned implies five recorded attempts, attempts counts the mark transactions, and rows there at any moment stay |
| DispatcherFleet.ClaimsOverlap | api/src/notification/notification.repository.ts:65-82 | two idle dispatchers can claim one pending row, send it twice and leave it pending |
| DispatcherFleet.SentAgainExactly | api/src/notification/notification.repository.ts:84-115 | a row can be accepted once more in some continuation if and only if it is pending, or a dispatcher has yet to try it, or one tried it and may put it back |
| DispatcherFleet.AtMostOnce | api/src/notification/notification.dispatcher.ts:52-102 | one dispatcher that neither dies nor loses a record sends each row at most once, and marks exactly the accepted ones sent |
| DispatcherFleet.OnceFromStart | api/src/notification/notification.dispatcher.ts:52-102 | from an empty outbox on, with such a dispatcher, a row marked sent was accepted exactly once and any other row never, an answer still to be recorded aside |
| FleetBatches.BatchIsRun | api/src/notification/notification.dispatcher.ts:52-102 | a whole batch is a run of one dispatcher of the fleet: the same table, one mark for each claimed row, and one acceptance exactly for those the gateway took |
| FleetBatches.BatchIsCareful | api/src/notification/notification.dispatcher.ts:52-102 | a batch in which every acceptance is recorded is a run of the careful dispatcher, so that AtMostOnce holds of batches |
| OutboxDelivery.BatchesAreRecordings | api/src/notification/notification.dispatcher.ts:52-102 | the dispatcher's batches over its rows are recordings over the outbox the transactions keep, row for row, and touch nothing else |
| OutboxDelivery.EveryMessageDecided | api/src/notification/notification.dispatcher.ts:52-102 | from an exact database, once a batch claims nothing, every confirmation of every order and every outcome message of every decided payment is there, to the right customer with the right amount, and sent, or given up after at most five attempts |
| CollectedRecord.CollectedExactly | tools/repo_knowledge/core.py:167-346 | a collection yields exactly the state whose every field is given over the arguments, Git and the recorded state, the generator and the sync source included; it is refused exactly when, and with what, its first unfit part is |
| CollectedRecord.ResultExactly | tools/repo_knowledge/core.py:183-220 | a new result has the reported status, run, attempt and non-empty extras; a given time is "ci", a run without a time is now and "observed", neither is the commit's time and "commit"; a repeated result is the recorded one, at no other time |
| CollectedRecord.EventsExactly | tools/repo_knowledge/cli.py:178-209 | the events of a collection, in order and field by field: a new head, the build and the tests if reported, and for sync the state |
| CollectedRecord.EventIdIs | tools/repo_knowledge/core.py:371-376 | an event is named after its kind, twelve characters of its commit, and its run and attempt, or else its content |
| RepoState.RetryExactly | tools/repo_knowledge/core.py:167-346 | a collection repeated with the same inputs returns its own output if and only if no unrecorded report has an empty time and the branch does not slip; it fails exactly in the first case |
| RepoState.RetryWithPhasesExactly | tools/repo_knowledge/core.py:117-346 | when the phases are judged anew for the repeated call, it returns its own output if and only if moreover they come out the same |
| PhaseEvidence.JudgedAgainExactly | tools/repo_knowledge/core.py:93-114 | phases are judged the same before and after if and only if each piece of evidence that decides one exists both times or neither |
| PhaseEvidence.CompletedExactly | tools/repo_knowledge/core.py:93-114 | a phase is completed exactly by a declared tag that exists, or by a closed status whose declared evidence exists and whose declared commit is 7 to 40 hexadecimal digits |
| PhaseEvidence.PhasesAre | tools/repo_knowledge/core.py:117-164 | over the declared phases: completed and blocked are the names of those that are so, in order, and active and next are told by position |
| PhaseEvidence.RetryAfterPublication | tools/repo_knowledge/core.py:93-164 | a collection repeated after its own publication, with no such evidence appearing or vanishing, returns its own output under the same condition |
| PhaseEvidence.PublicationCompletesPhase | tools/repo_knowledge/core.py:106-109 | a phase with the published STATUS.md as evidence makes the repeated collection differ |
| RepoState.EmptyTimeRefusesRetry | tools/repo_knowledge/core.py:207-213 | a concrete report with an empty time that succeeds once and is refused when repeated |
| RepoState.BranchSlipChangesRetry | tools/repo_knowledge/core.py:262-279 | a concrete repeated collection that renames the recorded branch |
| RepoState.LastBuildsAreLast | tools/repo_knowledge/core.py:320-325 | over any history the last successful and last failed builds are those of the last passed and the last failed or timed-out report |
| RepoState.BuildsAreRecords | tools/repo_knowledge/core.py:183-220 | over any history a recorded build is unknown or the record of one past report, with that report's commit and time |
| RepoState.ReportTaken | tools/repo_knowledge/core.py:187-220 | a reported result is recorded as that status, run, attempt, commit, time and extras, whether it is new or matched |
| RepoState.ReportRules | tools/repo_knowledge/core.py:251-253 | a silent report leaves its result untouched; only a pass replaces the last successful build, only a failure or timeout the last failed one |
| RepoState.HeadOrigin | tools/repo_knowledge/core.py:260-279 | the head is the reported source commit, the checked-out one, or the recorded one when only publications lie above it; the version is that commit's |
| RepoState.GeneratedAtIsLatest | tools/repo_knowledge/core.py:327 | a state is dated by the latest of its head, its build and its test |
| RepoState.ComputePhases | tools/repo_knowledge/core.py:117-164 | completed and blocked are the named phases that are so, in order; active is the first named open phase, and next the name of the first open phase after it, the completion of each phase being judged by PhaseEvidence.Completed |
| RepoState.NextAsDeclaredExactly | tools/repo_knowledge/core.py:117-164 | next names the next declared open phase exactly when none is declared any more or the first open phase after the active one has a name |
| RepoState.UnnamedPhaseHidesNext | tools/repo_knowledge/core.py:117-164 | three open phases of which the second has no name: next is none although the third is declared |
| JsonSchema.Validate | tools/repo_knowledge/validate.py:25-97 | the recursive checker reports exactly the faults of the value, each at its path: a fault is told over the types a value has, the texts and the keys; and it reports nothing exactly when the value conforms |
| JsonSchema.ValidateFields | tools/repo_knowledge/validate.py:64-74 | the property loop reports nothing exactly when every declared property present conforms |
| JsonSchema.ConformsExactly | tools/repo_knowledge/validate.py:25-97 | a value conforms exactly when there is no path to a fault in it, null having the null type alone and a whole number being a number too |
| Publication.Repository.Transaction | tools/repo_knowledge/cli.py:102-126 | success publishes exactly the staged tree; a candidate that cannot be staged fails; a failure before the exchange leaves the directory as it was and one after it leaves the staged tree published; no exchange happens when the files are the same |
| PublicationRuns.TransactionSteps | tools/repo_knowledge/cli.py:102-126 | what a transaction did to the directory is a step of the runs, with its failure and its exchange |
| PublicationRuns.FailedCommandExactly | tools/repo_knowledge/cli.py:109-126 | a failed command left the directory alone exactly when it failed before the exchange, which it does not reach with nothing to publish; otherwise the whole staged tree is published |
| PublicationRuns.FailureAfterExchange | tools/repo_knowledge/cli.py:121-126 | a run in which a command that fails after the exchange has published |
| Publication.Repository.FindConflict | tools/repo_knowledge/cli.py:104-108 | a conflict is reported exactly when the path of some event leads, past directories that exist, to anything but that event |
| Publication.MakeDirectories | tools/repo_knowledge/core.py:87-88 | the parents loop adds every directory the path passes, and fails exactly when one of them is a file |
| Publication.WriteEvent | tools/repo_knowledge/core.py:411-423 | an event is skipped when its place is reached and holds it, collides when it holds something else, and overwrites what is there when the path passes a directory that did not exist |
| Publication.WriteEvents | tools/repo_knowledge/cli.py:117-118 | the loop writes event after event and stops at the first failure |
| PublishedTrees.StagedContent | tools/repo_knowledge/cli.py:110-120 | every file of a staged tree is the rendering, the last event whose path leads there, the state, or what was published |
| EventPaths.FlatTarget | tools/repo_knowledge/core.py:416 | an id without a slash leads to its own file in the events directory and makes no other directory |
| EventPaths.WalkRooted | tools/repo_knowledge/core.py:416 | any path passes through every directory above the place it reaches |
| Publication.Repository.Verify | tools/repo_knowledge/cli.py:221-251 | the findings are exactly those there is reason for, each named with its place; there are none exactly when the schemas are there, project.yaml is a valid state, STATUS.md as read back is its rendering, and everything the events directory lists is a valid event |
| Publication.ReadsBackExactly | tools/repo_knowledge/cli.py:232-235 | a text comes back from a file as it was written exactly when it has no carriage return |
| PathText.ReadInParts | tools/repo_knowledge/cli.py:232-235 | a carriage return, alone or before a line feed, is read as one line feed, and every other character as itself |
| PathText.FilesAre | tools/repo_knowledge/core.py:416 | the file of an id is where its components lead from .repo/events, and a leading slash leads away |
| PathText.ListedAre | tools/repo_knowledge/cli.py:240-241 | the verifier lists exactly the names ending in .yaml in the events directory |
| FlatBatches.FlatStagesExactly | tools/repo_knowledge/cli.py:102-120 | a batch with file names for ids can be published if and only if state and events are valid, nothing but files and directories that fit are in its places, and neither a file there nor another event of the batch says anything else under an id |
| PublishedTrees.HarmlessExactly | tools/repo_knowledge/cli.py:102-126 | for every state and batch, what is published verifies and every other file is as it was if and only if the repository has its schemas, the event files there were in order, the rendering has no carriage return, no event leads to project.yaml, files the batch leads to hold what it writes last, and no path makes a directory that looks like an event |
| PublishedTrees.CleanExactly | tools/repo_knowledge/cli.py:102-126 | for every state and batch, what is published verifies, every other file is as it was and every event is in its own file if and only if the repository has its schemas, the event files there were in order, the rendering has no carriage return and no event id has a slash |
| PublicationRuns.VerifierAgreesExactly | tools/repo_knowledge/cli.py:102-126 | over any run of commands, failing before or after their exchange: no exchange leaves a finding or loses another file if and only if every exchanged publication was harmless when it was made; then between any two moments every published event is unchanged, and whatever is published verifies |
| PublicationRuns.MissingSchemas | tools/repo_knowledge/cli.py:89-94 | in a repository without a schemas directory a publication succeeds and the verifier fails |
| PublicationRuns.ProjectOverwritten | tools/repo_knowledge/core.py:416-422 | an id ending in /../../project replaces the staged project.yaml by the event; the command succeeds and the verifier reports it |
| PublicationRuns.EarlierEventOverwritten | tools/repo_knowledge/core.py:416-422 | an id ending in /../ and another event's id replaces that event; the command succeeds and the verifier is silent |
| PublishedTrees.RepublishingExactly | tools/repo_knowledge/cli.py:104-125 | publishing a state again with events of the same batch leaves the directory as it is if and only if each is the last of the batch at its place and none is at project.yaml |
| PublishedTrees.RepublishingChangesNothing | tools/repo_knowledge/cli.py:104-125 | ids that only lead down meet that condition |
| Collecting.CollectTwice | tools/repo_knowledge/cli.py:143-210 | repeating a collect or sync computes the same state, and publishes nothing if and only if each of its events is the last at its place, as with all ids that only lead down |
| Collecting.FlatArguments | tools/repo_knowledge/core.py:369-376 | the ids of a collection have no slash exactly when the reported run ids and attempts have none |
| StatusRendering.RenderReturnsExactly | tools/repo_knowledge/core.py:426-459 | the rendering of a state has a carriage return if and only if a field it prints has one |
| StatusRendering.LinesAre | tools/repo_knowledge/core.py:426-459 | STATUS.md line by line: every label, the field that stands after it, and what stands there when there is nothing to tell |
| StatusRendering.EndedSplits | tools/repo_knowledge/core.py:459 | splitting the text at its line feeds gives the lines back |
| StatusRendering.CommaedInParts | tools/repo_knowledge/core.py:450-455 | names are told in order, with a comma and a space between them |
| Collecting.CollectedReturnExactly | tools/repo_knowledge/core.py:183-346 | the rendering of a collected state has one if and only if a printed argument, the identity, a phase, or a recorded field that is kept has one |
| Collecting.CollectedCleanExactly | tools/repo_knowledge/cli.py:143-210 | what a collect or sync publishes verifies, keeps every other file and has each event in its own file if and only if the schemas are there, the event files were in order, the reported run ids and attempts have no slash, and no printed argument, identity, phase or kept field has a carriage return |
| CollectedInputs.CarriageReturnInSummary | tools/repo_knowledge/cli.py:232-235 | a first collection with the test summary "1 passed" and a carriage return is published, with the summary in its state, and reported by the verifier |
| CollectedInputs.AttemptOverwritesProject | tools/repo_knowledge/core.py:369-422 | whatever was published, a build reported with an attempt ending in /../../project is published over project.yaml, and reported by the verifier |
| CollectedInputs.FreshStages | tools/repo_knowledge/cli.py:102-126 | into an empty repository a valid state with events of distinct ids without slashes can be published |
| Collecting.CollectedIsRecorded | tools/repo_knowledge/cli.py:178-209 | once published, a new head, each reported result at its time, and for sync the state have their event in the directory, when the ids only lead down |
| RateLimiting.RateLimiter.Hit | api/src/common/rate-limit/redis-rate-limiter.ts:28-48 | one key's counter is bumped, its expiry set only by the hit that creates it, and the decision and the rounded time left read off it; other keys stay |
| RateLimiting.ResetIsTimeLeftExactly | api/src/common/rate-limit/redis-rate-limiter.ts:47 | the answered seconds are the time left to the nearest second exactly while half a second or more is left; below that they are the whole window |
| RateLimiting.DecisionsAre | api/src/common/rate-limit/redis-rate-limiter.ts:36-48 | a hit is allowed exactly when it is among the first `limit` hits of its window |
| RateLimiting.WindowAllows | api/src/common/rate-limit/redis-rate-limiter.ts:36-48 | a window allows exactly the smaller of its hits and the limit |
| RateLimiting.AnyIntervalAllows | api/src/common/rate-limit/redis-rate-limiter.ts:36-48 | hits less than one window length apart, wherever they begin, have at most twice the limit allowed |
| RateLimiting.NextWindowOpens | api/src/common/rate-limit/redis-rate-limiter.ts:39-45 | the first hit at or after a window's end is allowed |
| RateLimiting.RefusedHitsLeaveNoTrace | api/src/common/rate-limit/redis-rate-limiter.ts:39-45 | had a refused hit not happened, every other hit would have been decided the same |
| SessionTokens.Base64UrlRoundTrip | api/src/common/auth/session-token.ts:45-55 | decoding inverts encoding for every byte sequence, and the encoding contains no dot |
| SessionTokens.IssuedExactly | api/src/common/auth/session-token.ts:61-82 | a token is the encoded payload, a dot and its encoded MAC, the payload living for 2592000 seconds; none is issued exactly without a secret |
| SessionTokens.IssuedTokenVerifies | api/src/common/auth/session-token.ts:61-133 | an issued token verifies to its user and role exactly in the 2592000 seconds from its issue, and is expired from then on |
| SessionTokens.AcceptedExactly | api/src/common/auth/session-token.ts:57-133 | a token is accepted exactly when it is a payload part and the encoded MAC of that very part under the secret, with a payload that has not expired |
| SessionTokens.OtherSecretExactly | api/src/common/auth/session-token.ts:57-133 | a token issued under one secret and presented under another is accepted, in time, exactly when both give its payload part the same MAC, and has a bad signature otherwise |
| SessionTokens.AnsweredExactly | api/src/common/auth/session-token.ts:90-133 | every answer: by its two parts for a token that has two, malformed for any other, and an exception exactly without a secret |
| SessionTokens.EncodingDenotes | api/src/common/auth/session-token.ts:45-51 | the encoding has the length, the alphabet and in each group the 24-bit number section 5 of RFC 4648 gives it, without padding |
| SessionTokens.ReadingDenotes | api/src/common/auth/session-token.ts:53-55 | any characters of the alphabet are read as the whole bytes of their groups |
| SessionTokens.ReadingIgnores | api/src/common/auth/session-token.ts:53-55 | reading stops at the first equals sign, skips every foreign character, and takes both alphabets alike |
| UnitOfWork.PgUnitOfWork.WithTransaction | api/src/common/database/pg-unit-of-work.ts:33-56 | the outermost call sends one BEGIN, the queries, one COMMIT or ROLLBACK and one release, and commits all queries or none; an inner call adds only its queries |
| UnitOfWork.NestingFlattens | api/src/common/database/pg-unit-of-work.ts:34-39 | any tree of nested calls sends and decides what its flattened statement list does |
| UnitOfWork.CleanCommitsAll | api/src/common/database/pg-unit-of-work.ts:41-50 | work in which nothing fails sends every query of the tree, in order |
| UnitOfWork.AbortedExactly | api/src/common/database/pg-unit-of-work.ts:34-50 | over the work tree: the transaction is aborted exactly when a rejected query is reached; when none is, an exception leaves the call exactly when one is thrown outside every try |
| UnitOfWork.ReturnedCallCommitsExactly | api/src/common/database/pg-unit-of-work.ts:41-50 | a call that returns committed what it sent exactly when no rejected query was reached; otherwise it had sent something and committed nothing |
| UnitOfWork.CallCommitsExactly | api/src/common/database/pg-unit-of-work.ts:41-56 | any call committed what it sent exactly when nothing rejected was reached and no exception left it, or it sent nothing |
| UnitOfWork.SwallowedRejection | api/src/common/database/pg-unit-of-work.ts:46-50 | one rejected query whose exception is swallowed: the call returns, having sent a query and committed nothing |
| ImportStyle.Fix | tools/fix_imports.py:20-53 | the output is the file's parts in order with every fitting import block replaced by its joined line, and the count is the number of those blocks |
| ImportStyle.CheckImports | tools/prettier_heuristics.py:41-62 | one finding per import block that fits on a line, at its opener's line number |
| ImportStyle.FixerAndCheckerAgree | tools/fix_imports.py:20-53 | after fixing, the checker finds nothing and fixing again changes nothing; the parts of a file are the file, and the parts of the fixed file are the repaired parts |
| ImportStyle.FixKeepsInk | tools/fix_imports.py:20-53 | fixing changes nothing of a file but whitespace, line breaks and commas |
| ImportStyle.PartsAreTheFile | tools/fix_imports.py:26-48 | the parts put together again are the lines, in order |
| ImportText.JoinedWithinNinety | tools/fix_imports.py:19-43 | a block with a closing line and a name is replaced by one line exactly when that line has at most ninety characters, ten more than its names and its stripped closer |
| ImportText.PartsExactly | tools/fix_imports.py:26-48 | the lines fall into blocks from an opener to the first line with a closing brace, and plain lines, in this one way |
| ImportText.OpenersAre | tools/fix_imports.py:27 | an opener is, stripped, the word, whitespace or nothing, and the brace |
| ImportText.NameIs | tools/fix_imports.py:31 | a name is its line without whitespace at the ends and without the commas it then ends in |
| ImportText.FindingsAreOpeners | tools/prettier_heuristics.py:41-62 | the checker names a line exactly when it is the opener of a block that would be joined |
| ImportLogic.FixKeepsLogicExactly | tools/fix_imports.py:20-53 | for every file, the code of each statement (outside comments, whitespace and a trailing comma aside) and the scanner's state after it stay as they were if and only if every joined block stands outside literals and its commas balance: as many written as joined in before every word, no line ending in a literal, nothing after a // comment |
| ImportLogic.BalancedExactly | tools/fix_imports.py:28-43 | the lines of a block and the joined line let the same code through exactly when they balance, from any scanner state outside literals |
| ImportLogic.OneNameExactly | tools/fix_imports.py:28-43 | with one name to a line, that is: every line but the last ends in one comma, and the last in none, or in one if the closing line begins with the brace |
| ImportLogic.CommentAltersLogic | tools/fix_imports.py:3-4 | a four-line import whose first name has a comment loses its second name |
| ImportLogic.BlankLineAltersLogic | tools/fix_imports.py:34 | a blank line between two names becomes an empty name |
| ImportLogic.SharedCloserAltersLogic | tools/fix_imports.py:38-39 | a last name on the closing line loses the comma before it |

## Left out

- MoneyFloats.PercentageRefines: products at or past 2^53, where the multiplication itself is rounded, and fractional percentages; the guards of an order keep its amounts far below, and its one percentage is ten.
- PublicationRuns.VerifierAgreesExactly: covers a command with an event id that leads out of the staging directory (enough `..` to pass its root) only when the exchange is reached; what such a path writes elsewhere, the published directory included, is not modelled.
- PublishedTrees.RepublishingExactly: ids that leave .repo, be it to come back, are not covered; the check against files outside .repo depends on what lies there. The same holds for Collecting.CollectTwice, which also leaves out ids that lead to project.yaml, where the repeated command would read an event as the state.
- Symbolic links inside .repo, file names too long or with a NUL, permissions and a full disk: each can only make a command fail, except that links would lead paths elsewhere.
- The scanner of `ImportLogic` knows line and block comments and the three quotes; regular expression literals and code inside template literals are not told apart.
- InterleavedRuns.HolderNeverWaits: says nothing of the payment update itself, which locks its row before the reference is checked: two transactions that swap the references of two rows can wait for each other there, and the database aborts one.
- DispatchRuns counts batches that run to their end: one that ends early because nothing could be recorded leaves its rows as they were.
- Commands that run Git on .repo (checkout, merge) are not steps of a run; people changing files other than those the tool reads are.
- SQL text, the pg and Redis clients, connection failures, and a COMMIT or ROLLBACK that itself fails.
- `createOrder` and a dispatcher's mark are one step each in the interleaved machine: the first only inserts rows under fresh keys, the second writes one row in a transaction of its own.
- Checking a unique reference and taking the row lock of the payment update are one step, as are the two halves of an insert on conflict do nothing.
- The foreign key share lock that an event insert takes on its order row, which does not conflict with updates of other columns.
- Timeline order is commit order; `occurred_at`, `updated_at` and `sent_at` columns are not modelled (`Replays.LaterStartCommitsFirst` shows that the first may order events otherwise), nor generated ids other than as parameters.
- Order statuses past confirmed, refunds and cancellation: no code in the modelled files writes them.
- CHECK constraints of the schema that the code's own guards imply (advance at most cap, deadline only with a payment time) appear as proved facts; a negative listing price, which the schema forbids, is not excluded and needs no exclusion.
- User rows do not change during a run: a later change of phone or language would leave queued rows addressed as they were queued.
- NaN, infinities, negative zero and the `number` input of the parser: `MoneyFloats` covers the finite values the parser and the guards let through.
- `isSameCity` and its text normalisation: same-city is an input of an order.
- Stock is checked per line and never decremented, as in the code.
- The reasons logged by the dispatcher and template rendering; a rendering failure is one of the answers a delivery may have.
- A dispatcher's claim in the fleet may skip any rows, which covers SKIP LOCKED; the oldest-first order is proved for one dispatcher.
- Git, the clock, YAML reading and writing (taken to be inverse), the state digest and the schema files, which are fixed during a run; `sync.status`, which `init` sets to pending; job lists and branch names in events.
- Error message texts of the schema checker, regular expressions, which are functions from strings to booleans, and Python's equality of 1, 1.0 and true.
- The lock file of the repository tool: commands are steps, one at a time.
- Redis time has a resolution of one millisecond here, and a counter is gone from the millisecond its window ends; the limiter's fail-open branch is not modelled.
- JSON, UTF-8 and HMAC are parameters of the token model; comparing signatures is string equality.
- Splitting a file into lines and joining them: the import tools are modelled on lines; the checker's other rules are not modelled.
- KYC, listings, locations, identity codes, HTTP controllers and configuration.
