# Vyapaar backend: a verified model

Vyapaar's backend runs a purchase workflow for small merchants and keeps the ledgers around it. This
project models that logic in Dafny and proves what holds of it in every run.

- **Purchase workflow.** `PurchaseWorkflow` is the graph with its nine nodes, both cycles (modify,
  recover), the approval interrupt and the resume call, as a state machine over one thread; the suppliers'
  answers, the clock, the forecast and random draws come in with each step. `Negotiation`, `NegotiateNode`
  and `SupplierTools` are the buyer's side of an offer, `Approvals` the authority and executor objects.
  `WorkflowSafety` is the invariant, `WorkflowTheorems`, `WorkflowBrief`, `EndlessRecovery`
  and `FatalModifications` the results, and `WorkflowRuntime` the imperative thread object, each of whose methods is proved to be one step of the
  state machine.
- **Stored approvals.** `ApprovalService` has the database rows, each decision one transaction, and the
  comparison with the in-memory authority.
- **Orders.** `OrderExecution` interleaves any number of executions at the grain of lookup, lock, guards,
  insert, supplier call and commit. `Settlement` is orders, transactions and catalogue stock under serial
  transactions.
- **Stock.** `Inventory` and `InventoryTheorems`: the event ledger and receipt confirmation.
- **Suppliers.** `MockSupplier` gives one answer per idempotency key as long as envelopes are handled one
  after another, `MockInterleaving` says what overlapping ones do, and `MockBuyer` what the buyer makes of
  answers that are repeated; `CatalogSupplier` quotes from stored catalogues.
- **Bounded protocols.** `Otp`, `RateLimit`, `RefreshSessions` and `Outbox`.
- **Pages.** `Pagination` (keyset walks over tables that grow) and `CursorCodec` (base64url without
  padding, RFC 4648 sections 3.2 and 5).

Classes stand where the source updates objects or rows in place; each method is proved against a function
of the old state, and the lemmas are about runs of those functions.

## Conventions

Prices are whole paise, those of quotes and proposals at least one, and quantities thousandths of a unit, both
unbounded; the one rounding,
`quantize` to paise, is half to even. Time is a number of seconds given with each step and need not be
monotone unless a statement says so. Hashes, token digests and UUIDv5 names (RFC 9562 section 5.5) are
taken as injective: the hashed value stands for the hash. A signed token is its claims, or unverifiable.
Random identifiers and nonces are fresh by requirement or, where a run draws a taken one, that step does
not happen. Text is ASCII for trimming and letter case. An exception out of a transaction leaves the
committed state as it was, except after an invalid one-time code, whose effects the route commits.

## What the code does that one might not expect

- A confirmation without a supplier reference fails verification but does not put the supplier on the
  attempted list, so recovery is bounded only up to such confirmations (`RecoveryIsBounded`,
  `RecoveryNeedsReferences`).
- Recovery keeps the revision and so the execution key; after any answered result the executor returns
  that result again instead of calling the next supplier. Under one key only exceptions lead to another
  call (`CallsAreUsedUp`).
- `resume` lets the authority rule before it looks at a modification's limits, so an unusable modification
  uses the approval up and leaves the thread at its gate for ever (`UnusableModificationStrands`). Usable
  ones can be as fatal: with a price limit under the target price `find_supplier` raises, a quantity under one
  unit fails every negotiation, and one beyond the spending limit at any price fails the risk check
  (`ModificationIsFatalExactly`, `NegotiationIsOverExactly`, `LowLimitIsFatal`).
- Counters to the mock supplier are keyed by request and supplier, so later revisions get the first
  revision's answer, and five minutes after it an exception that ends the thread; discoveries for the same
  quantity likewise (`LaterCountersRepeatTheFirst`, `FirstCounterFixesThePrice`, `LoweredLimitIsNotOffered`,
  `LaterDiscoveriesRepeatTheFirst`, `LapsedCounterEndsTheThread`, `LapsedDiscoveryEndsTheThread`).
- A database rejection needs no token, and the mark on a lapsed approval is rolled back, so stored
  approvals are never marked expired (`AuthoritiesAgreeExactly`, `AuthoritiesDiffer`, `StoredApprovalsFit`).
- `OrderService` settles the transaction as succeeded for every answer that is not pending, a failed or
  cancelled status included (`ExecutionIsCoherentExactly`, `FailedAnswerSettlesAsSuccess`).
- A supplier call whose transaction is rolled back leaves no trace, and a later execution calls again
  (`LostCallAllowsAnother`, `OneApprovalTwoCalls`).
- The barcode index of a receipt confirmation goes stale when a line changes the barcode of an existing
  product, and a later line can then make a second product with that barcode. Barcodes stay distinct where no
  line does that (`BarcodeIndexStaysExactly`, `StaleIndexMakesTwins`, `LineKeepsBarcodesExactly`,
  `ConfirmationKeepsBarcodes`).
- The mock supplier's floor is taken of the price now stored, so it compounds over counters
  (`FloorsCompound`); the catalogue adapter looks at neither price nor quantity of the proposal it is given
  (`HandedOutQuotesCanBeOrdered`).
- The mock supplier suspends between looking a key up and storing its answer, so envelopes under one key
  that overlap are all processed (`UncrowdedKeysGetOneAnswer`, `OverlapAnswersTwice`).
- The hourly limit holds even for a clock that runs backwards, because the counts have no upper end, but
  only up to the lag of the database's clock, which dates the rows (`NoHourIsOverfull`,
  `LagOverfillsAnHour`).

## Model

| member | source | states |
|---|---|---|
| `WorkflowTheorems.EveryCallIsSafe` | backend/app/agents/services.py:150-190 | In every run of a thread (any suppliers, decisions, modifications, recoveries, clock) each `place_order` call is for a price within the limit then in force, at least one unit and no more than was quoted, in time, within the spending limit, for a payload whose hash an unexpired approved record carries; and that approval was granted by a timely ruling on its own token and is unchanged to the end of the run |
| `WorkflowTheorems.CallsAreUsedUp` | backend/app/agents/services.py:158-190 | No two supplier calls share an approval, and of two calls under one execution key the earlier one raised |
| `WorkflowTheorems.FinishedRunHasOneOutcome` | backend/app/agents/graph.py:40-74 | A finished run is in exactly one of: verified, with one confirmed order carrying a reference and no earlier success; waiting for the supplier; or failed with a reason and no success at all |
| `WorkflowTheorems.ApprovalsSettleOnce` | backend/app/agents/services.py:103-133 | From any point of any run on, hash, nonce, proposal and expiry of an approval never change, and a status other than pending is final |
| `WorkflowTheorems.OnePendingApproval` | backend/app/agents/runtime.py:56-98 | At most one approval of the thread is pending, only while the gate waits for it; the revision is one plus the modifications acted on |
| `WorkflowTheorems.DecidedGateIsStuck` | backend/app/agents/runtime.py:57-73 | Once the awaited approval is decided without the graph moving, no event ever moves the thread or causes a call |
| `WorkflowTheorems.UnusableModificationStrands` | backend/app/agents/runtime.py:67-91 | An accepted modification leaves the thread waiting at the gate for ever if and only if it gives no limit or a limit that is not positive, because the authority rules before resume looks at the limits |
| `WorkflowTheorems.WaitingThreadMovesOnExactly` | backend/app/agents/services.py:112-121 | In every run, with a clock at or past a given time, a waiting thread can still be moved on if and only if its approval is pending and has not lapsed by then |
| `FatalModifications.ModificationIsFatalExactly` | backend/app/agents/nodes/negotiate.py:26-34 | In every run, after an accepted modification no sequence of events ever brings another supplier call if and only if the modification gives no limit, a price limit under the target price, a quantity under one unit, or a quantity beyond the spending limit at one paisa a unit; after any other a call can be reached with the clock standing at any time |
| `FatalModifications.NegotiationIsOverExactly` | backend/app/agents/nodes/find_supplier.py:12-22 | Nor does it ever bring the thread to negotiation again if and only if it gives no limit, a quantity that is not positive, or a price limit under the target price |
| `FatalModifications.LowLimitIsFatal` | backend/app/agents/nodes/approval_gate.py:17-29 | A reachable thread with target price 2 and spending limit 2: the limit 1, which resume takes for usable, and no limit end it; half a unit and 2.001 units let it negotiate but never order; the limit 2, or 2 units, leave it alive |
| `WorkflowTheorems.RecoveryIsBounded` | backend/app/agents/graph.py:68-73 | In every run, the executions of one revision number at most the suppliers that quoted for it plus the confirmations that came without a reference |
| `WorkflowTheorems.ExecutionsAreOnePerSupplier` | backend/app/agents/nodes/execute_order.py:17-37 | Counting bare confirmations apart, the executions of a revision are exactly one per supplier tried |
| `EndlessRecovery.RecoveryNeedsReferences` | backend/app/agents/nodes/verify_result.py:10-11 | For every n there is a run with one quoting supplier and n executions in its first revision: without references recovery has no bound, so the extra term in the bound is needed |
| `WorkflowTheorems.ApprovedOrdersAreCalledExactly` | backend/app/agents/services.py:158-190 | In every run an execution reaches the supplier if and only if its key has no answer yet and the approval has not lapsed since |
| `WorkflowBrief.OrdersKeepToTheBrief` | backend/app/agents/nodes/create_proposal.py:14-25 | In every run each order is needed by the reorder point, goes to the preferred supplier if one was named, and is for the merchant, store, product, unit, deadline and spending limit the thread was started with; before any modification it is for no less than was asked for, and for exactly that if the merchant set it |
| `WorkflowBrief.ModificationsAreKept` | backend/app/agents/nodes/approval_gate.py:6-32 | After a modification, whatever forecast and suppliers do, every order of the revision it opens is for exactly its quantity and within its price, or what was in force where it gives none |
| `WorkflowBrief.RunKeepsBrief` | backend/app/agents/nodes/forecast_demand.py:9-22 | No node changes the brief, the forecast only raises a quantity the merchant did not set, and the thread only talks to the preferred supplier |
| `WorkflowBrief.StepMakesOneCall` | backend/app/agents/nodes/execute_order.py:8-16 | A step makes at most one call, out of execute_order, for the proposal of the selected offer under the key of request and revision |
| `WorkflowSafety.RunKeepsInv` | backend/app/agents/graph.py:16-74 | The invariant that ties offer, proposal, approvals, calls and executions together holds after every run |
| `WorkflowSafety.FindSupplierKeepsInv` | backend/app/agents/nodes/find_supplier.py:23-36 | Every candidate kept comes from a supplier that quoted for this revision and has not been tried in it |
| `WorkflowSafety.NegotiateKeepsInv` | backend/app/agents/nodes/negotiate.py:24-107 | The selected offer is within every limit and its supplier is the candidate's |
| `WorkflowSafety.RiskCheckKeepsInv` | backend/app/agents/nodes/risk_check.py:12-42 | A proposal that goes on to approval is within the spending limit |
| `WorkflowSafety.CreateProposalKeepsInv` | backend/app/agents/nodes/create_proposal.py:11-41 | The approval that is asked for carries the hash of exactly the risk-checked proposal and was never used for a call |
| `WorkflowSafety.ExecuteOrderKeepsCalls` | backend/app/agents/nodes/execute_order.py:8-42 | The one call an execution can make is safe and the first under its approval |
| `WorkflowSafety.ExecuteOrderKeepsExecutions` | backend/app/agents/nodes/execute_order.py:17-42 | A failed execution puts its supplier on the attempted list, where it was not before |
| `WorkflowSafety.VerifyResultKeepsInv` | backend/app/agents/nodes/verify_result.py:4-12 | The outcome matches what the last execution brought |
| `WorkflowSafety.RulingKeepsApprovals` | backend/app/agents/services.py:103-133 | A ruling settles only the approval waited for, approves only on its own timely token, and leaves the approvals of past calls untouched |
| `WorkflowSafety.GateKeepsInv` | backend/app/agents/nodes/approval_gate.py:6-32 | Approve, modify and reject each lead to a state that fits the node the graph goes to; a modification clears the attempted list and starts a new revision |
| `PurchaseWorkflow.ApprovalGate` | backend/app/agents/nodes/approval_gate.py:6-32 | The update built step by step is the state the decision calls for |
| `PurchaseWorkflow.Filtered` | backend/app/agents/nodes/find_supplier.py:25-29 | Exactly the quotes of suppliers that are neither attempted nor against the preference |
| `PurchaseWorkflow.RiskReasons` | backend/app/application/services/risk_service.py:7-30 | A check is among the reasons if and only if it fails |
| `WorkflowRuntime.Runtime.constructor` | backend/app/agents/runtime.py:25-41 | A started thread stands before its first node with nothing approved, called or executed |
| `WorkflowRuntime.Runtime.Advance` | backend/app/agents/graph.py:29-74 | Running a node against the authority and executor objects is one step of the state machine the theorems are about |
| `WorkflowRuntime.Runtime.Resume` | backend/app/agents/runtime.py:43-101 | The call changes thread and authority as the state machine says, and succeeds if and only if the thread waits for this approval and proposal, the authority accepts, and the decision is usable |
| `WorkflowRuntime.Runtime.Execute` | backend/app/agents/nodes/execute_order.py:8-42 | Execution, its answer and what it remembers are those of the state machine |
| `Negotiation.ValidateOffer` | backend/app/application/services/negotiation_service.py:18-42 | The failures are the checks that reject the offer, in order, and the offer is valid if and only if there is none |
| `Negotiation.OfferFailures` | backend/app/application/services/negotiation_service.py:18-42 | A check is listed if and only if it rejects the offer |
| `Negotiation.CounterPriceIsBounded` | backend/app/application/services/negotiation_service.py:44-48 | The counter to a quote above target lies between the target and the lower of quote and limit |
| `Negotiation.AcceptedCounterIsBetween` | backend/app/integrations/suppliers/catalog_supplier.py:78-86 | An accepted counter lies between the supplier's floor and the lower of quote and limit, so negotiating never raises the price |
| `Negotiation.CounterReachesFloorExactly` | backend/app/application/services/negotiation_service.py:44-48 | The counter reaches a floor if and only if the limit does and quote plus target reach twice the floor, less one paisa if the floor is even |
| `Negotiation.MockAcceptanceThreshold` | backend/app/integrations/suppliers/mock_supplier.py:186-194 | 88% of the quote as target is enough for the mock supplier's price, and acceptance implies 88% to within two paise |
| `Negotiation.CatalogAcceptanceThreshold` | backend/app/integrations/suppliers/catalog_supplier.py:80-86 | The same at 80% for the catalogue floor |
| `Money.NearestEvenIsUnique` | backend/app/application/services/negotiation_service.py:48 | Half-even rounding is pinned down as the nearest integer, the even one of two equally near |
| `NegotiateNode.Negotiate` | backend/app/agents/nodes/negotiate.py:11-117 | The loop over the candidates ends as the first candidate that is not refused says, with the history of every candidate up to it |
| `NegotiateNode.Approach` | backend/app/agents/nodes/negotiate.py:25-114 | One candidate raises, is refused or agrees, and adds its entries to the history |
| `NegotiateNode.FindAdapter` | backend/app/agents/services.py:62-69 | The supplier's own adapter if there is one, else one that handles all, else none |
| `NegotiateNode.CounterIsSentExactly` | backend/app/agents/nodes/negotiate.py:49-50 | A counter is sent if and only if the price is the only thing against the quote, or nothing is and it is above target |
| `NegotiateNode.AgreedTermsAreAcceptable` | backend/app/agents/nodes/negotiate.py:80-107 | Whatever terms are agreed on pass every check |
| `NegotiateNode.FirstNonRefusalDecides` | backend/app/agents/nodes/negotiate.py:24-117 | The outcome is that of the first candidate that is not refused, and no deal if all are |
| `NegotiateNode.DealIsWithACandidate` | backend/app/agents/nodes/negotiate.py:26-31 | A deal is with the supplier of one of the candidates, so recovery can rule it out by name |
| `SupplierTools.CollectQuotes` | backend/app/agents/tools/supplier_tools.py:6-15 | All quotes of the adapters that answered, once each, ordered by price and then delivery |
| `SupplierTools.SortIsAnOrderedPermutation` | backend/app/agents/tools/supplier_tools.py:15 | Sorting orders the quotes and loses or repeats none |
| `Approvals.InMemoryApprovalAuthority.Request` | backend/app/agents/services.py:79-101 | A pending record with the proposal's hash is added, and the token carries exactly its claims |
| `Approvals.InMemoryApprovalAuthority.Decide` | backend/app/agents/services.py:103-133 | Which failure is raised, and what each leaves in the records: only a lapsed approval is marked |
| `Approvals.DecisionGoesThroughExactly` | backend/app/agents/services.py:112-133 | A decision goes through if and only if the owner holds the unexpired token of a pending, unexpired approval; no other record changes and decided ones never do |
| `Approvals.SecureMemoryTransactionExecutor.Execute` | backend/app/agents/services.py:150-190 | Remembered results are returned without a call; the guards run in order; the supplier is called exactly when all pass; only a returned result is remembered |
| `ApprovalService.ApprovalService.Create` | backend/app/application/services/approval_service.py:34-56 | A pending row with the payload's hash is appended |
| `ApprovalService.ApprovalService.VerifyOwnerAndState` | backend/app/application/services/approval_service.py:248-259 | Owner, state and expiry are checked in that order and a lapsed approval is marked before it is refused |
| `ApprovalService.ApprovalService.Decide` | backend/app/agents/services.py:224-263 | Approve, mark as modified, reject or modify as one transaction: the table after it, with nothing left of a refused one |
| `ApprovalService.AuthoritiesAgreeExactly` | backend/app/agents/services.py:224-263 | Database and in-memory authority leave the same record if and only if the caller is no owner, or the approval was decided, or it has not lapsed and a rejection comes with a good token |
| `ApprovalService.AuthoritiesDiffer` | backend/app/agents/services.py:117-119 | On one stored approval both differences occur: only memory marks it expired, and only the database takes a rejection with a worthless token |
| `ApprovalService.LapsedStaysPending` | backend/app/application/services/approval_service.py:257-259 | A lapsed approval is never decided and stays pending in the table, since the expiry mark is rolled back |
| `ApprovalService.StoredApprovalsFit` | backend/app/application/services/approval_service.py:42-54 | No stored approval is ever marked expired, and hash, owner and payload always agree |
| `ApprovalService.OnlyTheNewestRevisionIsLive` | backend/app/application/services/approval_service.py:153-189 | Of the approvals that modifications made from one request all but the newest are marked modified; revisions count up, the price never rises, and everything but quantity, price and proposal id stays |
| `OrderExecution.OneCallPerProposal` | backend/app/application/services/order_service.py:57-146 | In any interleaving of executions, of two supplier calls for one proposal or under one approval the earlier one was rolled back after the call |
| `OrderExecution.CallsAreApproved` | backend/app/application/services/order_service.py:60-79 | Every supplier call is made while its approval stands approved |
| `OrderExecution.OrdersStayUnique` | backend/app/infrastructure/db/models.py:190-195 | No two committed orders share a proposal, a hash or a merchant's key, and a replay returns the committed order of the caller's own key |
| `OrderExecution.UncontendedExecutionCalls` | backend/app/application/services/order_service.py:57-131 | An execution with a good approval and nothing in its way does reach the supplier |
| `OrderExecution.LostCallAllowsAnother` | backend/app/application/services/order_service.py:130-146 | After a call whose transaction is rolled back, a second execution of the same approval calls again |
| `OrderExecution.OneApprovalTwoCalls` | backend/app/application/services/order_service.py:130-146 | Such a run from an empty database: one approval, asked for and granted, and two calls under it |
| `OrderExecution.RunKeepsInv` | backend/app/application/services/order_service.py:57-146 | Uniqueness, lock exclusion and the link from calls to rows hold in every interleaving |
| `Settlement.OrderBooks.Execute` | backend/app/application/services/order_service.py:48-215 | One serial execution: the order, item total and transaction it creates, or the order already stored under the key, or nothing |
| `Settlement.OrderBooks.DecideSupplierOrder` | backend/app/api/v1/suppliers.py:393-488 | The books after a decision, and that it is accepted if and only if it decides now or repeats the decision taken |
| `Settlement.OrderBooks.UpsertSupplierProduct` | backend/app/api/v1/suppliers.py:300-349 | The stock under the trimmed upper-case SKU becomes the given quantity |
| `Settlement.ReserveTakesTheDemand` | backend/app/api/v1/suppliers.py:417-429 | Reserving line by line succeeds if and only if stock covers each SKU's total over all its lines, and takes exactly that total |
| `Settlement.StockIsAccountedFor` | backend/app/api/v1/suppliers.py:343-347 | Over any run from an empty catalogue, whatever orders of whatever lines are there, stock is never negative and equals the last upserted quantity less what was reserved since, each reservation being for one confirmed order at its own supplier |
| `Settlement.ConfirmedOrdersAreReserved` | backend/app/api/v1/suppliers.py:415-431 | An order that waits for its supplier at any point of any run and is confirmed later has had exactly its items reserved at its supplier in between |
| `Settlement.ExecutionIsCoherentExactly` | backend/app/application/services/order_service.py:139-146 | An execution keeps order, transaction and amounts coherent if and only if the adapter raises, confirms or leaves the order pending |
| `Settlement.FailedAnswerSettlesAsSuccess` | backend/app/application/services/order_service.py:138-146 | From empty books an adapter that answers with a failed order leaves a failed order whose transaction has succeeded |
| `Settlement.BooksStayCoherent` | backend/app/application/services/order_service.py:88-146 | Over any interleaving of executions, decisions and upserts with the wired adapters, from any coherent books, statuses pair up and transaction amount, order total and item total are equal |
| `Settlement.DecisionKeepsCoherence` | backend/app/api/v1/suppliers.py:408-448 | A supplier's decision keeps statuses and amounts paired |
| `Settlement.SettledOrdersAreFinal` | backend/app/api/v1/suppliers.py:408-413 | An order that does not wait for its supplier never changes again, nor does its transaction |
| `Settlement.SecondDecisionChangesNothing` | backend/app/api/v1/suppliers.py:408-413 | A second decision, same or opposite, leaves the books as they are |
| `Inventory.InventoryService.RecordEvent` | backend/app/infrastructure/db/repositories/inventory.py:75-116 | The stock change and its ledger event, or the refusal that leaves both alone |
| `Inventory.InventoryService.ConfirmReceipt` | backend/app/application/services/inventory_service.py:145-275 | The tables after a confirmation and the answer given: a stored answer, a refusal that is rolled back whole, or the work of all lines |
| `Inventory.InventoryService.PutProduct` | backend/app/application/services/inventory_service.py:170-209 | The matched or new product and both indexes after it, or why the line cannot be matched |
| `Inventory.InventoryService.ConfirmLine` | backend/app/application/services/inventory_service.py:169-250 | One pass of the loop: product, stock, event and result line, or the refusal |
| `InventoryTheorems.SkuIndexIsExact` | backend/app/application/services/inventory_service.py:357-367 | The index lists under a key exactly the products whose folded SKU it is |
| `InventoryTheorems.LineKeepsIndex` | backend/app/application/services/inventory_service.py:187-209 | After each line the SKU index is the one rebuilt from the products, and folded SKUs stay unique |
| `InventoryTheorems.BarcodeIndexStaysExactly` | backend/app/application/services/inventory_service.py:201-209 | After a line the barcode index still matches the products if and only if the line had no barcode, made a new product or left the product's barcode as it was |
| `InventoryTheorems.StaleIndexMakesTwins` | backend/app/application/services/inventory_service.py:172-209 | From a shop with one product, one receipt of two lines makes two products with the same barcode |
| `InventoryTheorems.LineKeepsBarcodesExactly` | backend/app/application/services/inventory_service.py:171-209 | A line keeps barcodes distinct if and only if it has none or no product but the one it goes to has it |
| `InventoryTheorems.RightIndexKeepsBarcodesFree` | backend/app/application/services/inventory_service.py:173-185 | While the barcode index matches the products, a line that is not refused finds its barcode on no other product |
| `InventoryTheorems.ConfirmationKeepsBarcodes` | backend/app/application/services/inventory_service.py:165-250 | A confirmation in which no line gives an existing product another barcode leaves distinct barcodes distinct |
| `InventoryTheorems.LineGoesToItsSku` | backend/app/application/services/inventory_service.py:170-203 | A line goes to the product with its SKU, and makes a new one only if no product has it |
| `InventoryTheorems.ConfirmationAddsUp` | backend/app/application/services/inventory_service.py:165-257 | Each item has its line, which names the product of its SKU, failing that one listed under its barcode, failing that a new one; the created count is the number of new products; each product's stock in the store grows by exactly the lines that went to it and every other shelf stays |
| `InventoryTheorems.LedgerBalances` | backend/app/infrastructure/db/repositories/inventory.py:87-115 | Over any run stock is the opening balance plus all deltas, each event records the running balance, no prefix is negative, and no event key occurs twice |
| `InventoryTheorems.ConfirmedExactlyOnce` | backend/app/application/services/inventory_service.py:156-162 | Any mix of retries, reused keys and failing lines leaves what the first successful confirmations alone leave |
| `InventoryTheorems.RetriesGetTheFirstResponse` | backend/app/application/services/inventory_service.py:337-342 | Whatever happens in between, the same request gets the first response and changes nothing; another request under the key is refused |
| `InventoryTheorems.RowsStayFinished` | backend/app/application/services/inventory_service.py:273-275 | No committed confirmation row is unfinished |
| `Text.CaseFormsAgree` | backend/app/application/services/inventory_service.py:170-172 | Upper case and case folding identify the same SKUs |
| `MockSupplier.MockSupplierAdapter.HandleEnvelope` | backend/app/integrations/suppliers/mock_supplier.py:163-224 | Quotes, answers and call count after an envelope that is handled without another in between, and the answer or exception |
| `MockInterleaving.UndisturbedIsHandled` | backend/app/integrations/suppliers/mock_supplier.py:163-224 | An envelope that is not overtaken while it is suspended is handled as in one piece |
| `MockInterleaving.UncrowdedKeysGetOneAnswer` | backend/app/integrations/suppliers/mock_supplier.py:169-224 | In any interleaving, if no envelope started while another under its key was in flight, all envelopes under that key get the same answer |
| `MockInterleaving.OverlapAnswersTwice` | backend/app/integrations/suppliers/mock_supplier.py:169-171 | Any two envelopes in flight under one key that the agent can serve are both processed, whichever ends first, and get different answers |
| `MockInterleaving.TwoCopiesOverlap` | backend/app/integrations/suppliers/mock_supplier.py:163-171 | From a quiet system two copies of a purchase request that can be served do so |
| `MockBuyer.LaterCountersRepeatTheFirst` | backend/app/integrations/suppliers/mock_supplier.py:111-134 | Once a counter of a request is answered, every later counter of it to that supplier, in whatever revision, at whatever price, is judged by the first answer, and as an exception once that answer's envelope has lapsed; the supplier does nothing |
| `MockBuyer.FirstCounterFixesThePrice` | backend/app/agents/nodes/negotiate.py:64-82 | So the request never agrees with that supplier on another price than the first counter's, and not at all under a limit below it |
| `MockBuyer.LaterDiscoveriesRepeatTheFirst` | backend/app/integrations/suppliers/mock_supplier.py:89-109 | A discovery under a key that was answered gets the first quote again, and an exception that is not skipped once its envelope has lapsed |
| `MockBuyer.LapsedCounterEndsTheThread` | backend/app/agents/nodes/negotiate.py:64-69 | A counter that comes to a lapsed answer ends the thread, if every earlier candidate refused |
| `MockBuyer.LapsedDiscoveryEndsTheThread` | backend/app/agents/tools/supplier_tools.py:10-14 | A discovery that comes to a lapsed answer ends the thread, whoever else quotes |
| `MockBuyer.FreshAnswersVerify` | backend/app/a2a/signing.py:12-30 | An answer that is not a replay verifies |
| `MockBuyer.LoweredLimitIsNotOffered` | backend/app/agents/nodes/negotiate.py:68 | A request whose limit was lowered to 94 after a counter of 95 was taken: under any new key the counter of 94 would be taken, under the request's own it is refused |
| `MockSupplier.ReplaysAreInvisible` | backend/app/integrations/suppliers/mock_supplier.py:169-170 | Deleting every replay from any sequence of envelopes changes neither the final quotes, answers and call count nor any other reply |
| `MockSupplier.RepeatedKeyGetsTheFirstAnswer` | backend/app/integrations/suppliers/mock_supplier.py:169-224 | A key once answered gets that answer ever after, whatever the envelope says, and changes nothing |
| `MockSupplier.FailuresAreProcessedAgain` | backend/app/integrations/suppliers/mock_supplier.py:171-224 | A failure only moves the call count; the same envelope is then answered if and only if the agent is up and can serve it |
| `MockSupplier.CounterRespectsTheFloor` | backend/app/integrations/suppliers/mock_supplier.py:186-193 | An accepted counter is stored at the countered price, not below the floor of the price it replaces |
| `MockSupplier.PriceStaysAboveLowest` | backend/app/integrations/suppliers/mock_supplier.py:186-192 | In every run, from the constructed agent on, a quote's price is at least the price at which it was last quoted with the floor applied once per counter accepted since |
| `MockSupplier.FloorsCompound` | backend/app/integrations/suppliers/mock_supplier.py:186-192 | That bound is reached: n counters under new keys bring the price to exactly the n-fold floor, so 94% binds each counter and not the quote |
| `CatalogSupplier.CatalogSupplierAdapter.Discover` | backend/app/integrations/suppliers/catalog_supplier.py:28-60 | The quotes for the rows that can serve the request, each filed under its id |
| `CatalogSupplier.CatalogSupplierAdapter.CounterOffer` | backend/app/integrations/suppliers/catalog_supplier.py:68-86 | The revised quote and its filing, or a refusal that changes nothing |
| `CatalogSupplier.CatalogSupplierAdapter.PlaceOrder` | backend/app/integrations/suppliers/catalog_supplier.py:88-95 | A proposal on a filed quote of its own supplier waits for the supplier without a reference; any other raises |
| `CatalogSupplier.CounteredIsAnswered` | backend/app/integrations/suppliers/catalog_supplier.py:78-86 | The catalogue takes a counter if and only if the common floor rule at 90% does, and at exactly the price offered |
| `CatalogSupplier.QuotesAreTheServingRows` | backend/app/integrations/suppliers/catalog_supplier.py:29-60 | Discovery quotes exactly the active rows of the SKU with enough stock |
| `CatalogSupplier.HandedOutQuotesCanBeOrdered` | backend/app/integrations/suppliers/catalog_supplier.py:58-91 | After any run in which buyers counter quotes they were handed, a proposal can be ordered if and only if a quote under its id was handed out for its supplier, and changing its price or quantity makes no difference |
| `Otp.OtpChallenge.Verify` | backend/app/application/services/auth_service.py:453-494 | The challenge after a verification, whose effects are kept even when it raises, and when it is accepted or asks for registration |
| `Otp.OtpChallenge.Resend` | backend/app/application/services/auth_service.py:390-416 | A resend resets the attempts and moves the expiry exactly when the challenge is open, below its limit and past its delay |
| `Otp.OtpChallenge.Register` | backend/app/application/services/auth_service.py:839-856 | A registration uses the challenge up exactly when it is verified, unused and for registration |
| `Otp.CodesAreBounded` | backend/app/application/services/auth_service.py:464-472 | In any run the codes compared are bounded by the resends so far, a success is recorded exactly once, and expiry stays within its bound |
| `Otp.ChallengeLimits` | backend/app/application/services/auth_service.py:390-482 | At most (max_attempts - 1) * max_resends + max_attempts codes are compared, at most one is right, at most one registration follows, and expiry is at most created + (max_resends + 1) * expiry |
| `Otp.ConsumedForGood` | backend/app/application/services/auth_service.py:458-470 | A consumed challenge, used or locked out, is never changed again, a resend included |
| `Otp.BoundIsReached` | backend/app/application/services/auth_service.py:390-470 | The bound on comparisons is tight |
| `RateLimit.OtpRequests.Request` | backend/app/application/services/auth_service.py:308-347 | A challenge is stored, under the database's clock, exactly when both counts of the hour before the service's clock are below their limits |
| `RateLimit.NoHourIsOverfull` | backend/app/application/services/auth_service.py:318-332 | No interval of any run that is an hour less the lag of the database's clock, so no hour where there is none, holds more than 5 challenges of one identifier or 20 of one address |
| `RateLimit.LagOverfillsAnHour` | backend/app/application/services/auth_service.py:318-339 | That is tight: for every lag up to an hour an interval one second longer than the hour less the lag can hold six challenges of one identifier |
| `RateLimit.RefusedExactlyInAFullHour` | backend/app/application/services/auth_service.py:318-332 | If no row is dated later, a request is refused if and only if the hour ending with it holds the limit of its identifier or address; without a lag it never holds more |
| `RefreshSessions.SessionService.Issue` | backend/app/application/services/auth_service.py:221-231 | A new unrevoked session under a fresh token |
| `RefreshSessions.SessionService.Refresh` | backend/app/application/services/auth_service.py:255-276 | The presented session is revoked and linked to its replacement exactly when it is live and its user is valid; nothing changes otherwise |
| `RefreshSessions.SessionService.RevokeToken` | backend/app/application/services/auth_service.py:287-294 | The session of the token, if any, is revoked |
| `RefreshSessions.TokenRefreshesOnce` | backend/app/application/services/auth_service.py:263-276 | After a refresh no refresh with that token ever succeeds again |
| `RefreshSessions.RowsOnlyAge` | backend/app/application/services/auth_service.py:255-294 | Sessions are never dropped, revocations never undone, replacements never changed |
| `RefreshSessions.RefreshKeepsInv` | backend/app/application/services/auth_service.py:268-275 | Tokens stay distinct, a replaced session is revoked and replaced by a newer one of the same user, and no session replaces two |
| `RefreshSessions.ChainsAreAcyclic` | backend/app/application/services/auth_service.py:275 | After any run no session is reached from its own replacement |
| `RefreshSessions.OneLiveSessionPerLogin` | backend/app/application/services/auth_service.py:255-276 | After any run each login's chain of replacements has at most one live session, the last |
| `Pagination.PageSplitsListing` | backend/app/api/pagination.py:25-29 | A page without cursor is the whole listing; otherwise the listing is the page followed by the listing below its cursor |
| `Pagination.ListingIsNewestFirst` | backend/app/infrastructure/db/repositories/approvals.py:62-66 | Rows come in strictly descending (created_at, id) order |
| `Pagination.WalkNeverRepeats` | backend/app/api/v1/history.py:38-66 | Whatever rows are inserted between pages, the walk lists selected rows strictly newest first, so none twice |
| `Pagination.WalkMissesNothing` | backend/app/api/v1/history.py:38-66 | A walk that ends has listed every selected row that was there when it began |
| `Pagination.WalkOfFixedTableIsTheListing` | backend/app/infrastructure/db/repositories/approvals.py:47-66 | On an unchanged table the walk ends and its pages together are the full sorted listing |
| `CursorCodec.PaddingIsRecovered` | backend/app/api/pagination.py:11-18 | Stripping the padding and adding (-length) mod 4 pads back restores the exact encoding |
| `CursorCodec.CursorRoundTrips` | backend/app/api/pagination.py:9-20 | Decoding a cursor gives back the bytes it was made of |
| `CursorCodec.CursorsAreTheCleanTexts` | backend/app/api/pagination.py:9-20 | A text is the cursor of some bytes if and only if it decodes to them, has no padding and leaves unused bits zero |
| `CursorCodec.CharsStandForLetters` | backend/app/api/pagination.py:11 | Each letter of the URL-safe alphabet stands for one value and back |
| `Outbox.OutboxPublisher.PublishBatch` | backend/app/infrastructure/events/outbox.py:25-49 | The rows after a batch, published or with their attempts counted, and the number published |
| `Outbox.ReachedKeepsInv` | backend/app/infrastructure/events/outbox.py:16-24 | In every interleaving open batches hold disjoint unpublished rows |
| `Outbox.PublishedMeansDelivered` | backend/app/infrastructure/events/outbox.py:42-47 | A row is marked published if and only if a committed batch delivered its event |
| `Outbox.CommittedDeliveriesAreUnique` | backend/app/infrastructure/events/outbox.py:16-24 | Of two deliveries of one row the batch of the earlier was rolled back, so committed workers never deliver a row twice |
| `Outbox.RollbackReleasesTheBatch` | backend/app/infrastructure/events/outbox.py:15-24 | A rollback makes exactly the rows of the batch selectable again |

## Left out

- Starting a thread twice: the run theorems are about a thread that is started once. The route takes the request id from the client (backend/app/api/v1/agents.py:124-148), so the same thread can be started again, which resets its state.
- Workflow threads side by side: the run theorems are about one thread with an authority and executor that start empty; concurrency is modelled for executions and for the outbox.
- The workflow over the database authority and executor: the thread theorems are about the in-memory objects. `ApprovalService` compares the two authorities, but not the unique (proposal_id, order_hash) pair that makes the database refuse a repeated request.
- ApprovalService.ApprovalService.Decide: the row is given by position; which row the lookup by approval id or proposal id returns when a proposal id names several is the database's choice. The missing-user and unsupported-action errors of the database authority are not modelled.
- Settlement.OrderBooks.Execute: one serial transaction; the interleaved steps of the same method are in `OrderExecution`. The idempotency row's own response is not kept, since no reader uses it.
- Column rounding: numeric columns with two or three decimals round what is stored; the model keeps exact amounts on the paise and thousandth grids.
- Floats in the workflow state: prices and quantities pass through `float` and `str` between nodes; the model passes them exactly.
- Forecasting: the forecast and the reorder arithmetic behind it come in as one natural number, the shortage.
- `RiskService` inputs that every call leaves at their defaults (trust score and duplicate flag) are constants.
- Quote expiry and currency: no node compares them.
- Catalogue rows are one per supplier and upper-case SKU; renaming a supplier SKU and the product columns beside quantity are left out.
- Inventory.InventoryService.ConfirmReceipt: the attributes other than the barcode, the audit row and the receipt data are left out; the row lock that makes concurrent confirmations wait is taken as serial execution.
- MockSupplier.MockSupplierAdapter.HandleEnvelope: signature, receiver, expiry and clock skew are one flag, and the method is one step (its suspension is in `MockInterleaving`); stored messages, correlation ids and the result cache of `place_order` are left out.
- RateLimit.OtpRequests.Request: requests are serial; two concurrent requests can both pass the counts.
- Otp.OtpChallenge.Verify: delivery of codes, password hashing and the session issued on success are left out; whether the code is right and the user known come in as flags.
- RefreshSessions.SessionService.Refresh: access tokens, device names and the user row are left out; whether the user is still valid comes in as a flag.
- Pagination: filters on columns that change during a walk, such as approval status, are not covered, nor is the negotiations listing, whose join can repeat a row.
- CursorCodec: the JSON and ISO text inside a cursor, and the decoder's tolerance of characters outside the alphabet.
- Outbox: the order among rows of equal created_at is the database's choice; the event types and the bus are a yes or no per row.
- Notifications, audit rows, activity records, telemetry and outbox rows written by the services.
- Network and library parts: message transports, language models, OAuth, Argon2, HMAC and JWT internals, receipt image reading, analytics queries.
