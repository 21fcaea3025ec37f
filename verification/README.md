# Verification of the SML send path and its neighbours

A Dafny model of the parts of the Nexflow backend in which a mistake costs money or
a document, with proofs about all inputs, all runs and all interleavings.

- **The immutable SML send.** `Bills`, `Sender` (from items to a frozen request),
  `Attempts` (the database transactions), `Client` (the POST loop and what is made of
  its result), `Heartbeat` (the lease), `Protocol` (senders, operators, the ERP and late
  POSTs as a step system), `Safety` (its invariant), `Guarantees` (what every
  run keeps), `PostedLines` (what each POST says of each item), `Quantities` (converted
  quantities through edits and POSTs), `StaffSummary`, `Retry` and `MisleadingRuns` (when
  a retry offer can be believed).
- **Shopee Auto-SML.** `AutoSml` (one worker run under arbitrary interference),
  `AutoSmlJobs` (the life of a job over leases, restarts and retries).
- **Marketplace money.** `Lazada` (the row loop in integer cents), `OrderAmounts` (what an
  order says about the cells of its rows), `AmountReview` (the bill of an order and the
  reconciliation report).
- **Products and units.** `Resolver` (the batch index against the rule for one item),
  `Conversion` (the snapshot the sender relies on).
- **Numbers and bulk jobs.** `DocNumbers`, `DocTexts` (what a format prints), `BulkJobs`.
- **Texts.** `EnvFile`, `TenantMode` (the gateway switch over two files), `RouteModes`.
- `Wrappers`, `Text`, `Money`, `Permutations` hold shared vocabulary.

`dafny verify dfyconfig.toml` checks the whole project.

## How to read the protocol

Every call of a sender to the database or the ERP is one step, so senders, operator
edits, lease expiry, crashes, lost replies and POSTs that arrive late interleave
freely. A sender reads the bill row and the items in two steps, as
`FindByID` does. `Policy` names what varies: which attempt states a claim may replay,
whether the client posts again after an unanswered POST, the bill's possible routes. The
repository's own policy is `CodePolicy`; the guarantees hold for every policy.

Assumed of the ERP (`Protocol.ErpAllows`): one document per number; equal bytes are
never rejected; different bytes are never accepted; a rejection creates nothing; a
transient answer leaves open whether the document was created. A POST may be
processed at any time after it was made.

## What the code does not keep

- A bill shown as retryable may have its document. The repository replays expired
  `sending` and `unknown` attempts, and the sale-order client posts again after a
  transport error, so an earlier POST can arrive after a later one was rejected.
  `MisleadingRuns.RetrySoundExactly` gives the exact condition on the policy.
- The review write of a refused sender is not guarded: it blanks status and number of a
  bill that another sender has meanwhile sent (`MisleadingRuns.NumberLost`). Exactly when
  numbers agree is `Guarantees.NumberAgreesExactly`.
- The sale-invoice route takes a line's unit from a cache by product code, so two items
  of one code in different units are sent in one unit (`Bills.InvoiceUnitsExact`).
- The second route check of an Auto-SML run does not compare with the job's route
  (`AutoSml.SecondRouteExactly`).
- An item can get the alias of another product that shares its SKU or name
  (`Resolver.SharedSkuLeaks`). Exactly which items are safe from it in every order of the
  batch is `Resolver.AgreesExactly`; an item without an alias is, if and only if no item
  sharing an entry with it has one (`Resolver.UnaliasedInAnyOrder`).
- A line whose SKU is one of the reserved shipping codes is sent unconverted
  (`Conversion.MappedIsSendable`).
- A running format repeats its numbers when it prints no sequence, as `YYMMDD`, or omits
  what its counter period depends on, as `MM####`; exactly these formats do
  (`DocNumbers.NeverRepeatsExactly`).
- A bulk job is closed as completed even when an item could not be started
  (`BulkJobs.LeftOverExactly`).
- A complete rollback file left over from older credentials is preferred by `direct` and
  replaces the active ones (`TenantMode.RestoresExactly`).
- The sale-order client documents three attempts; its loop makes four POSTs, and the
  model follows the loop (`Client.PostWithBackoff`).

## Model

| member | source | states |
|---|---|---|
| `Bills.BuildLines` | backend/internal/handlers/bills.go:2067-2093 | the line loop of a send returns exactly the specified lines: items without a code skipped, the first quantity error stops it; what the lines say is `PostedLines.SendDecidedExactly` |
| `Bills.LinesFaithful` | backend/internal/handlers/bills.go:2067-2093 | a fully mapped bill renders exactly when every quantity is ready, and then each line carries its own item's code, amounts and accepted quantity |
| `Bills.LinesNamed` | backend/internal/handlers/bills.go:2081-2093 | each line is named after its catalog product where that has a name, else after the item |
| `Bills.FingerprintExactly` | backend/internal/handlers/tiktok_import.go:979-1005 | two fingerprints are equal if and only if the bills have the same lines in order, with the same names, quantities, prices, gross amounts and discounts |
| `Bills.ProductsExactly` | backend/internal/marketplace/conversion.go:36-42 | converted quantity is quantity times multiplier; the base quantity times the divisor is that times the unit factor's numerator; an extended amount is quantity times price |
| `Money.RoundNearest` | backend/internal/handlers/tiktok_import.go:1065-1070 | an amount is rounded to the nearest cent, halves away from zero |
| `Bills.FillUnitCache` | backend/internal/handlers/bills.go:2203-2212 | the invoice route's unit cache, filled in item order; what it holds is `Bills.LastUnitWins` |
| `Bills.LastUnitWins` | backend/internal/handlers/bills.go:2203-2212 | per product code the cache has the unit of the last item that names one, and none without such an item |
| `Bills.InvoiceUnitsExact` | backend/internal/services/sml/saleinvoice_client.go:607-620 | on the invoice route every line keeps its item's unit if and only if items sharing a product code share the unit |
| `Attempts.BillRepo.CreateSMLAttempt` | backend/internal/repository/sml_attempt_repo.go:62-140 | the creating transaction with its five refusals; a changed revision or an existing attempt creates nothing |
| `Attempts.BillRepo.ClaimExistingSMLAttempt` | backend/internal/repository/sml_attempt_repo.go:193-247 | the claim: sent and stale attempts are not leased, a running lease of another owner is busy, everything else gets a new lease |
| `Attempts.BillRepo.RenewSMLAttemptLease` | backend/internal/repository/sml_attempt_repo.go:249-263 | a lease is extended exactly for the owner of an attempt still being sent |
| `Attempts.BillRepo.FinishSMLAttempt` | backend/internal/repository/sml_attempt_repo.go:287-390 | an outcome is written, with bill status and number, exactly for the present owner; otherwise nothing changes |
| `Attempts.BillRepo.UpdateBillItemFields` | backend/internal/repository/bill_repo.go:878-974 | a manual item edit: whole new item and row, refused once an attempt exists; a changed amount drops the confirmation |
| `Attempts.BillRepo.ConfirmAmountReview` | backend/internal/repository/bill_repo.go:1169-1182 | a confirmation is stored, with a new revision, exactly while the bill may be edited |
| `Attempts.BillRepo.InsertManualItem` | backend/internal/repository/bill_repo.go:800-832 | adding an item: refused once an attempt exists, otherwise exactly one item more at its place and a new revision |
| `Attempts.BillRepo.DeleteManualItem` | backend/internal/repository/bill_repo.go:844-864 | deleting an item, likewise: that item goes, the others stay in order |
| `Attempts.BillRepo.ApplyMarketplaceMaster` | backend/internal/repository/bill_repo.go:980-1076 | applying the product master: whole new item, and the bill status by whether any item is unmapped |
| `Attempts.BillRepo.UpdateDocNoIfUnattempted` | backend/internal/repository/bill_repo.go:1190-1200 | a new number is stored exactly while there is no attempt and the status is the one loaded |
| `Attempts.BillRepo.PromoteReviewedBillPending` | backend/internal/repository/bill_repo.go:1184-1188 | a bill in review becomes pending, with a new revision, exactly while it is live and unattempted |
| `Attempts.BillRepo.UpdateStatusToReview` | backend/internal/repository/bill_repo.go:710-718 | the status write of a refused sender blanks the number while attempt, items, revision and confirmation stay, so nothing tells other senders of it |
| `Client.PostWithBackoff` | backend/internal/services/sml/saleorder_client.go:261-350 | the POST loop: at most four POSTs (one for invoices), all with the same bytes, stopping where the code stops; status and answer of the last answered try |
| `Client.LoopDeterministic` | backend/internal/services/sml/saleorder_client.go:261-350 | what the network does fixes which POSTs are made |
| `Client.LastAnswerFrom` | backend/internal/services/sml/saleorder_client.go:292-322 | the status reported after a transport error is that of an earlier answer, when there was one |
| `Client.SentExactly` | backend/internal/handlers/bills_sml_attempt.go:291-312 | `sent` is recorded if and only if the last POST was answered in full with an acceptance naming no other number and, with a profile, no conflict and a storable status |
| `Client.RecordedAs` | backend/internal/handlers/bills_sml_attempt.go:276-368 | which of the outcomes is recorded, in terms of the last POST's answer and status |
| `Client.FailedExactly` | backend/internal/handlers/bills_sml_attempt.go:345-367 | a definite failure rests on an answer with a non-transient status; every POST after that answer went unanswered |
| `Client.StatusesAgree` | backend/internal/handlers/bills_sml_attempt.go:276-367 | the bill is marked sent if and only if the attempt is; a profile result is recorded only with an acceptance or a conflict |
| `Client.SilenceStaysOpen` | backend/internal/handlers/bills.go:2258-2276 | an exchange in which no POST was answered is recorded as unknown |
| `Client.FailedWithoutResend` | backend/internal/handlers/bills.go:2258-2276 | without a POST after an unanswered one, a definite failure means that the last POST itself was rejected |
| `Client.ExecuteAttempt` | backend/internal/handlers/bills_sml_attempt.go:181-368 | executing a leased attempt: POSTs carry the stored payload; a lost lease writes nothing; otherwise exactly the decided completion is written |
| `Sender.DependencySnapshot` | backend/internal/handlers/bills_sml_attempt.go:130-161 | fails if and only if two items name different unit-catalog generations; otherwise returns the one named |
| `Sender.PrepareSend` | backend/internal/handlers/bills.go:1743-1864 | the sender's checks in order, and what each leads to |
| `Sender.GoesExactly` | backend/internal/handlers/bills.go:1783-1864 | a bill goes to the ERP if and only if all checks pass, and the frozen request is then faithful to its items |
| `PostedLines.SendDecidedExactly` | backend/internal/handlers/bills.go:1743-1864 | on the bill's own columns: exactly when a send replays, goes out, or is held for review, and what each line of the request is: quantity, price, gross amount, discount, code |
| `PostedLines.PostedExactly` | backend/internal/handlers/bills.go:1233-1249 | in every run line i of every POST has item i's quantity unless the tenant converts, then its stored converted quantity unless its SKU is a shipping code; likewise code, amounts and, on the sale-order route, unit |
| `PostedLines.ConfirmedLineByLine` | backend/internal/handlers/bills.go:1783-1795 | a review-required bill is only sent with the amounts, line by line, of a version an operator confirmed |
| `Safety.NextInv` | backend/internal/handlers/bills_sml_attempt.go:120-127 | every step of every worker, operator and the ERP keeps the protocol invariant |
| `Safety.EditsFrozen` | backend/internal/repository/bill_repo.go:1078-1094 | operator steps change neither items, confirmation nor revision once an attempt exists |
| `Safety.CheckKept` | backend/internal/handlers/bills.go:1783-1864 | what a worker prepared stays faithful to the revision it loaded |
| `Safety.ProcessKeepsDocs` | backend/internal/handlers/bills_sml_attempt.go:276-290 | the ERP stores one document per number, and an acceptance means that the attempt's bytes are stored |
| `Protocol.HeartbeatExactly` | backend/internal/handlers/bills_sml_attempt.go:436-463 | a heartbeat extends the lease exactly for the holder; a worker that does not see it confirmed counts the lease as lost and records nothing any more |
| `Protocol.CreateExactly` | backend/internal/handlers/bills.go:2137-2155 | a prepared request becomes the attempt exactly when the bill admits it and its catalogs are current; if only they are not, the bill is sent to review; else the sender gives up |
| `Protocol.ArchivedExactly` | backend/internal/repository/bill_repo.go:1078-1094 | an archived bill keeps its items and gets no attempt |
| `Protocol.ReceiveExactly` | backend/internal/services/sml/saleorder_client.go:292-330 | a worker takes in the ERP's answer to its own POST: in full, cut short, or as a bare status |
| `Guarantees.OneDocument` | backend/internal/handlers/bills.go:1770-1782 | in every run all POSTs of a bill carry one payload and one number, and at most one document comes of them |
| `Guarantees.PlanForever` | backend/internal/handlers/bills.go:2137-2151 | once created, the payload, number and route never change, nor do the items; every later POST carries that payload |
| `Guarantees.OutcomeByHolder` | backend/internal/handlers/bills_sml_attempt.go:272-274 | an outcome is written only by the worker holding the latest lease with no lease lost; a settled state changes only through a new claim |
| `Guarantees.OutcomesFenced` | backend/internal/handlers/bills_sml_attempt.go:291-312 | each lease records at most one outcome; `sent` rests on an acceptance whose number is empty or the attempt's, and the document exists |
| `Guarantees.SentForever` | backend/internal/repository/sml_attempt_repo.go:219-224 | `sent` is never left and nothing is recorded after it |
| `Guarantees.FrozenLines` | backend/internal/handlers/bills_sml_attempt.go:120-127 | once an attempt exists every POST says, line by line, what the bill's present items say, with converted quantities |
| `Guarantees.ConfirmedAmountsOnly` | backend/internal/handlers/bills.go:1783-1795 | a review-required bill is sent only at a revision whose confirmation matches the items, given by an operator on a version loaded before with the same amounts |
| `Guarantees.NumberStep` | backend/internal/repository/bill_repo.go:710-718 | one step keeps bill and attempt number equal if and only if it is not the unguarded review write of a sender on an attempted bill |
| `Guarantees.NumberAgreesExactly` | backend/internal/repository/bill_repo.go:710-718 | after a run bill and attempt numbers agree if and only if every review write on the attempted bill was followed by a recorded outcome |
| `Guarantees.SummarySound` | backend/internal/handlers/bill_diagnostics.go:17-58 | with bill and attempt read at different times: resolved or succeeded implies the document exists; an undetermined POST is shown as undetermined and not retryable |
| `Guarantees.SummaryExactly` | backend/internal/handlers/bill_diagnostics.go:17-58 | on reachable states, with bill and attempt read at different times: succeeded or resolved if and only if the attempt as read is sent, by whether there were failures; undetermined if and only if it is unknown or being sent; retryable if and only if it failed for good |
| `Guarantees.AnyMarkCounts` | backend/internal/handlers/bill_diagnostics.go:17-24 | for any bill and attempt, each of the four marks of a created document alone makes the answer succeeded, or resolved after failures |
| `Retry.StrictIsSound` | backend/internal/handlers/bill_diagnostics.go:55-57 | where only definite failures are replayed and no POST follows an unanswered one, a retryable bill has no document of its own and no POST on its way |
| `MisleadingRuns.Misleading` | backend/internal/services/sml/saleorder_client.go:292-302 | for every bill that can be sent, any other policy has a run in which a bill shown as retryable has its document |
| `MisleadingRuns.RetrySoundExactly` | backend/internal/repository/sml_attempt_repo.go:219-231 | the retry offer is sound in all runs if and only if the policy is that strict one |
| `MisleadingRuns.CodeMisleads` | backend/internal/repository/sml_attempt_repo.go:219-231 | the policy of the code is not |
| `MisleadingRuns.NumberLost` | backend/internal/handlers/bills.go:2062-2065 | a run in which a sent document's number is blanked on its bill by a sender holding a stale copy |
| `Heartbeat.Beat` | backend/internal/handlers/bills_sml_attempt.go:436-463 | the lease is reported lost if and only if a served tick failed to renew; otherwise at least 270 s remain when the stop returns, less the delay before the heartbeat started |
| `Heartbeat.LeaseExcludes` | backend/internal/repository/sml_attempt_repo.go:226-231 | while the lease runs no other claim changes anything and the holder's outcome is recorded |
| `Quantities.ChangeKeepsExact` | backend/internal/repository/bill_repo.go:939-956 | a manual change keeps converted and base quantity exact multiples, and the gross amount quantity times price |
| `Quantities.SetFieldsSets` | backend/internal/repository/bill_repo.go:900-938 | a manual change sets exactly the columns given, and the item is mapped by whether its code is non-empty |
| `Quantities.MasterSets` | backend/internal/repository/bill_repo.go:1019-1046 | a master sets code, unit, multiplier, factors, revision and generation of the line, and quantities by its figures |
| `Quantities.RecodedIsHeld` | backend/internal/repository/bill_repo.go:957-964 | after product or unit is changed by hand the line is refused by a converting sender, unless its SKU is reserved |
| `Quantities.MasterRestores` | backend/internal/repository/bill_repo.go:1019-1046 | a ready master makes the line sendable with its own multiple; an unready one unmaps it where conversion is enforced |
| `Quantities.EditNeedsConfirmation` | backend/internal/handlers/bills.go:1455-1457 | after an amount edit a review-required bill is refused until it is confirmed anew |
| `Quantities.PostedQuantitiesExact` | backend/internal/handlers/bills.go:2067-2093 | in a converting tenant every POST of every run carries each item's quantity times its multiplier |
| `AutoSml.ParsesExactly` | backend/internal/models/shopee_auto_sml.go:21-57 | a status is recognised if and only if its trimmed upper-case text is the name |
| `AutoSml.ProceedsExactly` | backend/internal/handlers/shopee_auto_sml.go:169-190 | a job proceeds if and only if its trigger transition is on record and the order is at or past it |
| `AutoSml.NameReads` | backend/internal/models/shopee_auto_sml.go:21-57 | each status name reads as its status, in upper or lower case and with space around it |
| `AutoSml.ReachExactly` | backend/internal/handlers/shopee_auto_sml.go:235-356 | how far a run gets, on the readings themselves: creation, bill, link, second look, send |
| `AutoSml.CreationExit` | backend/internal/handlers/shopee_auto_sml.go:279-300 | what a refused creation ends in, by reason, status and text |
| `AutoSml.SendExit` | backend/internal/handlers/shopee_auto_sml.go:362-379 | a send ends succeeded if and only if answered with 200, in contention if and only if 409 and busy, in review if otherwise 202 or a user's action, and in a retry in all other cases |
| `AutoSml.Preflight` | backend/internal/handlers/shopee_auto_sml.go:248-328 | the checks up to the fitting bill: exactly when they pass, and which outcome each other reading ends in |
| `AutoSml.ProcessAutoSMLJob` | backend/internal/handlers/shopee_auto_sml.go:235-380 | whatever changes between reads: exactly one outcome call on every path, which one by an exact condition on the readings, the number of a completed job, and a send if and only if all conditions of `Sends` held at the reads |
| `AutoSml.SecondRouteExactly` | backend/internal/handlers/shopee_auto_sml.go:334-343 | a sending run uses the job's own route if and only if the setting read second still names it; moving setting and live route to any other route in between does not stop the send |
| `AutoSml.RouteSwitched` | backend/internal/handlers/shopee_auto_sml.go:339-343 | readings under which a job queued for one route is sent on another |
| `AutoSmlJobs.OneDocumentTime` | backend/internal/repository/shopee_auto_sml_repo.go:397-406 | over all leases, restarts and manual retries every send of a job carries the same document time |
| `AutoSmlJobs.BoundedFailures` | backend/internal/repository/shopee_auto_sml_repo.go:455-530 | one worker at a time; at most three transient failures between manual retries, the third being final |
| `AutoSmlJobs.LeaseKept` | backend/internal/repository/shopee_auto_sml_repo.go:290-343 | every step keeps: one worker, and each lease or transient failure paid for in the attempt counter |
| `AutoSmlJobs.DisableExactly` | backend/internal/repository/shopee_auto_sml_repo.go:233-243 | switching the automation off cancels the waiting jobs and leaves the others alone |
| `AutoSmlJobs.ContentionIsFree` | backend/internal/repository/shopee_auto_sml_repo.go:503-511 | however many runs meet another sender, the job waits to be leased again with its attempts as before |
| `AutoSmlJobs.RestartRequeues` | backend/internal/repository/shopee_auto_sml_repo.go:276-288 | after a restart a running job is queued again once its lease has expired, and not before |
| `AutoSmlJobs.RetryStartsAfresh` | backend/internal/repository/shopee_auto_sml_repo.go:513-530 | a retry by hand starts a job in review or failed for good afresh; document time and sends stay |
| `AutoSmlJobs.SendingRun` | backend/internal/handlers/shopee_auto_sml.go:357-380 | a sending run adds exactly one send at the persisted time and releases the job, which is completed if and only if the reply was 200 |
| `AutoSmlJobs.OutcomeStatus` | backend/internal/repository/shopee_auto_sml_repo.go:415-511 | the job status each outcome call leads to |
| `AutoSmlJobs.CompletedForGood` | backend/internal/repository/shopee_auto_sml_repo.go:276-343 | no later step sends a completed job again |
| `Lazada.Adjust` | backend/internal/handlers/lazada_import.go:836-862 | the adjustment columns: discount is platform plus seller part, and which cells make the row unusable |
| `Lazada.PlaceItem` | backend/internal/handlers/lazada_import.go:886-898 | the row's item grows where the index says, or is appended and indexed |
| `Lazada.PlacedFits` | backend/internal/handlers/lazada_import.go:886-898 | a row adds one to exactly one item; quantity, gross, discount and shares of every item remain those of its rows |
| `Lazada.AddRow` | backend/internal/handlers/lazada_import.go:863-906 | order totals stay the sums of their rows and of their items; blocked and mismatch flags say exactly which rows exist |
| `Lazada.TakeRow` | backend/internal/handlers/lazada_import.go:804-821 | a row's order is created or compared with its first row, and then says what its rows say |
| `Lazada.ReadRows` | backend/internal/handlers/lazada_import.go:785-907 | the row loop over the whole file |
| `Lazada.ParseLazada` | backend/internal/handlers/lazada_import.go:909-933 | all orders in order of appearance, closed with their payment difference and flag |
| `Lazada.TotalPermuted` | backend/internal/handlers/lazada_import.go:899-906 | every total is independent of the order of the rows |
| `AmountReview.OrderPermuted` | backend/internal/handlers/lazada_import.go:785-907 | an order's totals and flags are independent of the order of the rows |
| `AmountReview.ItemsPermuted` | backend/internal/handlers/lazada_import.go:886-898 | so are its items, up to their order |
| `OrderAmounts.BlockedExactly` | backend/internal/handlers/lazada_import.go:817-866 | blocked if and only if a row has a cell that is no amount, a positive adjustment, negative gross or shipping or more deducted than its gross, or two rows disagree in status, time or payment |
| `OrderAmounts.UnflaggedExactly` | backend/internal/handlers/lazada_import.go:867-872 | unflagged if and only if within one cent in total and, on every row, gross less the four deductions plus shipping is within one cent of paid, on the cells |
| `OrderAmounts.AmountsExactly` | backend/internal/handlers/lazada_import.go:899-931 | every amount of an order is the sum over the cells of the rows that count for it |
| `OrderAmounts.QuantityExactly` | backend/internal/handlers/lazada_import.go:886-922 | no row is lost or counted twice: item quantities add up to the number of rows that count |
| `OrderAmounts.ItemExactly` | backend/internal/handlers/lazada_import.go:886-898 | an item counts the rows agreeing in the four texts, the gross amount and the deductions, and multiplies their amounts |
| `OrderAmounts.OneRowListed` | backend/internal/handlers/lazada_import.go:786-803 | a row makes an order if and only if it has an order number and is confirmed, shipped or delivered |
| `OrderAmounts.OneRow` | backend/internal/handlers/lazada_import.go:833-934 | the order of one row carries its cells over one by one |
| `OrderAmounts.OneRowUnflagged` | backend/internal/handlers/lazada_import.go:867-872 | a usable row is left unflagged if and only if it pays gross less deductions plus shipping, to the cent |
| `AmountReview.DiscountWithinGross` | backend/internal/handlers/lazada_import.go:864-866 | in an order that is not blocked no item's discount exceeds its gross |
| `AmountReview.ValidateShippingConfig` | backend/internal/handlers/lazada_import.go:651-666 | refused if and only if some order has shipping and there is no product for it |
| `AmountReview.ConfirmItems` | backend/internal/handlers/lazada_import.go:477-521 | the bill of an order: every item with its amounts, the shipping line with the configured product, and the bill status |
| `AmountReview.AuditDetail` | backend/internal/handlers/marketplace_amount_review.go:26-63 | the report's amounts, with the stored fields' fallbacks |
| `AmountReview.LineCounts` | backend/internal/handlers/marketplace_amount_review.go:50-62 | a bill line counts with its gross amount to the cent less its discount, and not at all if that is negative |
| `AmountReview.DocumentAmount` | backend/internal/handlers/lazada_import.go:477-516 | the document amount of an imported order is net product amount plus shipping; no line is clipped |
| `AmountReview.ReportOfImport` | backend/internal/handlers/marketplace_amount_review.go:48-63 | the report repeats the order's amounts, and unallocated is order amount minus document amount, to the cent |
| `Resolver.FileAliases` | backend/internal/repository/marketplace_alias_repo.go:340-358 | each key leads to the last loaded alias of the same account that carries it, and every loaded alias is filed |
| `Resolver.RuleExactly` | backend/internal/handlers/marketplace_item_resolver.go:273-302 | the rule takes an alias of the item's account with its identity, else its bare variant, else (TikTok) its variant as SKU, else its SKU, else without identity and SKU its name, whenever there is one |
| `Resolver.ResolvedExactly` | backend/internal/handlers/marketplace_item_resolver.go:300-312 | an alias counts if and only if its target is ready; a learned name is kept exactly for items without an SKU |
| `Resolver.PrepareIndex` | backend/internal/handlers/marketplace_item_resolver.go:266-327 | the batch index: for each key the resolution of the last item that writes it, by the rule for one item |
| `Resolver.LoneBatchExactly` | backend/internal/handlers/marketplace_item_resolver.go:64-90 | in a batch of one aliased item a lookup gives that alias exactly to the items sharing its identity, bare variant, SKU or name |
| `Resolver.IndexAgrees` | backend/internal/handlers/marketplace_item_resolver.go:64-90 | if items sharing an entry resolve alike, the index returns what the rule returns |
| `Resolver.LookupExactly` | backend/internal/handlers/marketplace_item_resolver.go:64-90 | a lookup gives the alias of the last writer of the first entry whose last writer has one |
| `Resolver.AgreesExactly` | backend/internal/handlers/marketplace_item_resolver.go:266-327 | an item gets its own resolution in every order of the batch if and only if it is not overridable, a condition on what the items sharing its entries resolve to by themselves |
| `Resolver.UnaliasedExactly` | backend/internal/handlers/marketplace_item_resolver.go:313-327 | in a given order an item without an alias stays without one if and only if the last writer of each of its entries has none |
| `Resolver.UnaliasedInAnyOrder` | backend/internal/handlers/marketplace_item_resolver.go:313-327 | in every order, if and only if no item sharing an account-scoped entry with it has one |
| `Resolver.OwnIdentityKept` | backend/internal/handlers/marketplace_item_resolver.go:71-80 | an alias found by the item's own identity or variant is returned in every order |
| `Resolver.IndexSafe` | backend/internal/handlers/marketplace_item_resolver.go:64-90 | in any case only a document-ready alias of the item's own account, found by a batch item sharing an entry |
| `Resolver.LookupEntry` | backend/internal/handlers/marketplace_item_resolver.go:85-89 | a batch item never reaches the entry that is not scoped to an account |
| `Resolver.LegacyDecidesExactly` | backend/internal/handlers/marketplace_item_resolver.go:85-89 | the entry not scoped to an account decides a lookup if and only if no scoped entry answers, which never happens to an item of the batch |
| `Resolver.SharedSkuLeaks` | backend/internal/handlers/marketplace_item_resolver.go:313-327 | a batch in which a product without an alias gets that of another product with its SKU |
| `Conversion.ItemCell.ApplyConversionSnapshot` | backend/internal/handlers/marketplace_item_resolver.go:533-597 | ready if and only if the policy has no issue; then the snapshot is complete, else the issue is stored; nothing else changes |
| `Conversion.PolicyReadyExactly` | backend/internal/handlers/marketplace_item_resolver.go:543-590 | a conversion takes an enabled, ready alias with positive figures, a generation and a multiplier from 1 to 1,000,000 |
| `Conversion.PolicyIssueExactly` | backend/internal/handlers/marketplace_item_resolver.go:543-590 | the first thing missing is the issue stored |
| `Conversion.FromMatchExactly` | backend/internal/handlers/marketplace_item_resolver.go:412-429 | code and unit are the active alias's own, else those of the SKU's product with the default unit for a blank one, else none |
| `Conversion.NormalizeSkuExactly` | backend/internal/handlers/marketplace_item_resolver.go:383-390 | marks and space around a SKU do not count; nan, null and - mean none |
| `Conversion.FromResolution` | backend/internal/handlers/marketplace_item_resolver.go:440-480 | mapped if and only if it has a usable target (or, in shadow mode without a SKU, a learned one) and, where conversion is active, a ready policy; code and unit of that target; amounts are the line's own |
| `Conversion.MappedIsSendable` | backend/internal/handlers/bills.go:1233-1249 | an imported and mapped item passes the sender's quantity rule, with the exact converted quantity if and only if its SKU is not reserved or the multiplier is one |
| `Conversion.UnreadyNeverSent` | backend/internal/handlers/bills.go:1820-1864 | a line imported while its conversion is not ready carries a non-empty issue, is refused by the quantity rule unless its SKU is reserved, and keeps its bill from being sent |
| `DocNumbers.PadValue` | backend/internal/repository/doc_counter_repo.go:173-190 | padded digits read back as the number |
| `DocTexts.TokensExactly` | backend/internal/repository/doc_counter_repo.go:173-190 | a format has exactly one spelling in tokens read as long as they can be, and spelling them out gives the format back |
| `DocTexts.TokenExactly` | backend/internal/repository/doc_counter_repo.go:173-190 | years print in four or two digits, months and days in two, with those values; a run of # prints the sequence |
| `DocTexts.PeriodExactly` | backend/internal/repository/doc_counter_repo.go:157-171 | two dates share a counter if and only if they agree in what the finest date token names |
| `DocTexts.Example` | backend/internal/services/sml/docno_client_test.go:24-38 | sequence 10 of May 2026 under NX-PO and YYMM#### is NX-PO26050010 |
| `DocNumbers.RenderEqualExactly` | backend/internal/repository/doc_counter_repo.go:173-190 | two numbers of one prefix and format are equal if and only if their date texts are and, where the format prints it, the sequence |
| `DocNumbers.PeriodsApartExactly` | backend/internal/repository/doc_counter_repo.go:157-171 | numbers of different periods never meet if and only if the format prints what its period depends on |
| `DocNumbers.AllIncreasing` | backend/internal/repository/doc_counter_repo.go:45-64 | per prefix and period issued sequences strictly increase, however requests interleave |
| `DocNumbers.NeverTwice` | backend/internal/repository/doc_counter_repo.go:40-64 | two reservations of one prefix and such a format, anywhere in a run with any other reservations, give different numbers |
| `DocNumbers.NeverRepeatsExactly` | backend/internal/repository/doc_counter_repo.go:40-64 | no run repeats a number of a format within a century if and only if the format prints the sequence and everything its counter period depends on |
| `DocNumbers.FormatsMeet` | backend/internal/repository/doc_counter_repo.go:157-190 | two formats of one prefix that share a counter can give the same number |
| `DocNumbers.DocCounterRepo.NextSeqAtLeast` | backend/internal/repository/doc_counter_repo.go:45-64 | the reservation: one past the last or the minimum, whichever is more, and stored |
| `DocNumbers.AllocateFreshDocNo` | backend/internal/handlers/bills.go:294-335 | with any reservations of others and any change of the taken numbers between its tries: at most 100 rising sequences reserved, each but the last found taken when looked up; the number given was free then and is an issue of the run |
| `DocNumbers.QuietAllocation` | backend/internal/handlers/bills.go:321-334 | undisturbed, an allocation gives the first free sequence from the reserved one on |
| `DocNumbers.PreviewFreshDocNo` | backend/internal/handlers/bills.go:337-374 | the first free sequence from the ERP's next one on, reserving nothing |
| `DocNumbers.PreviewBelowAllocation` | backend/internal/handlers/bills.go:337-374 | a preview is at most the following allocation, and equal when the local counter is below the ERP's next sequence |
| `BulkJobs.BulkJob.RunBulkSendJob` | backend/internal/handlers/bills.go:2842-2963 | after the run every item is what its own circumstances make of it; others untouched; a vanished job is left alone; counts and job status accordingly |
| `BulkJobs.RunExactly` | backend/internal/handlers/bills.go:2893-2957 | on the item's own circumstances: exactly when a queued item ends sent, skipped, failed, running or queued |
| `BulkJobs.RetryExactly` | backend/internal/handlers/bills.go:2939-2954 | a retry job of a new job's run holds exactly the bills sent with a reply that is neither 200, nor 202, nor a skip |
| `BulkJobs.RunConserves` | backend/internal/handlers/bills.go:2893-2957 | sent, skipped, failed, not started and not written back add up to the queued items |
| `BulkJobs.LeftOverExactly` | backend/internal/repository/sml_bulk_job_repo.go:425-441 | a closed job has nothing left over if and only if every start and finishing write succeeded |
| `BulkJobs.BulkJob.RecoverInterrupted` | backend/internal/repository/sml_bulk_job_repo.go:480-518 | after a restart queued and running items are failed, the rest untouched |
| `BulkJobs.BulkJob.FailedBillIDs` | backend/internal/repository/sml_bulk_job_repo.go:456-478 | the bills of the failed items, in order |
| `BulkJobs.RetryHoldsFailures` | backend/internal/handlers/bills.go:2774-2809 | a retry job holds a bill if and only if an item of it failed, as many as failed |
| `BulkJobs.RetryHoldsOnce` | backend/internal/handlers/bills.go:2774-2809 | each once |
| `BulkJobs.ValidateBulkBillIDs` | backend/internal/handlers/bills.go:2979-2999 | accepted if and only if 1 to 100 distinct UUIDs after trimming; the array then holds the trimmed ids |
| `BulkJobs.GoodIdsExactly` | backend/internal/handlers/bills.go:2979-2999 | accepted are 1 to 100 ids that are UUIDs once trimmed and differ from each other |
| `BulkJobs.UuidExactly` | backend/internal/handlers/bills.go:3001-3018 | 36 characters, hyphens at 8, 13, 18 and 23, hexadecimal digits elsewhere |
| `EnvFile.ReadEnv` | scripts/shopee_gateway_tenant_mode.py:28-35 | the values of a file, later assignments winning |
| `EnvFile.AssignsExactly` | scripts/shopee_gateway_tenant_mode.py:32-32 | a line assigns if and only if it has an equals sign and its first text is not # |
| `EnvFile.AssignedExactly` | scripts/shopee_gateway_tenant_mode.py:33-34 | the first equals sign parts key from value, and space around either does not count |
| `EnvFile.Upsert` | scripts/shopee_gateway_tenant_mode.py:38-50 | the rewritten lines: in place, then the missing updates in their order |
| `EnvFile.UpsertReads` | scripts/shopee_gateway_tenant_mode.py:38-50 | reading the rewritten file gives the old values overridden by the updates |
| `EnvFile.UpsertTwice` | scripts/shopee_gateway_tenant_mode.py:38-50 | rewriting is idempotent |
| `EnvFile.OthersKept` | scripts/shopee_gateway_tenant_mode.py:38-50 | every other line stays as it is and where it is; a line of an updated key becomes key=value |
| `TenantMode.Tenant.PrepareModeUpdates` | scripts/shopee_gateway_tenant_mode.py:77-108 | the updates of a mode, its refusals, and the rollback file it writes |
| `TenantMode.Tenant.Run` | scripts/shopee_gateway_tenant_mode.py:142-175 | one run of the script with a crash allowed between the two writes |
| `TenantMode.SwitchCredentials` | scripts/shopee_gateway_tenant_mode.py:77-108 | the credentials in both files after a run in terms of those before |
| `TenantMode.SwitchValues` | scripts/shopee_gateway_tenant_mode.py:77-108 | a completed run leaves the mode text, the settings, and all other keys as before |
| `TenantMode.RefusedExactly` | scripts/shopee_gateway_tenant_mode.py:77-105 | gateway is refused if and only if one credential is there without the other, direct if and only if neither file has both |
| `TenantMode.NeverLost` | scripts/shopee_gateway_tenant_mode.py:77-108 | over any run of switches and crashes complete credentials stay restorable |
| `TenantMode.RestoresExactly` | scripts/shopee_gateway_tenant_mode.py:94-105 | `direct` restores the active credentials after every run if and only if the rollback file was not a complete one of other credentials |
| `RouteModes.ParseRouteModes` | backend/internal/config/config.go:280-324 | the parser, with its errors in their order |
| `RouteModes.ExplicitExactly` | backend/internal/config/config.go:301-322 | accepted if and only if every entry is a known route with a known mode and no route comes twice; then it says those modes |
| `RouteModes.FirstErrorExactly` | backend/internal/config/config.go:301-319 | the first entry that cannot be taken decides the error, a repeated route before its mode |
| `RouteModes.EntryExactly` | backend/internal/config/config.go:306-316 | route and mode of an entry are read on their own; space around them and upper case do not count |
| `RouteModes.ShapeExactly` | backend/internal/config/config.go:302-309 | an entry is malformed if and only if it is empty or has not exactly one colon |
| `RouteModes.NothingListed` | backend/internal/config/config.go:280-298 | without entries the sale invoice follows the older setting, which must be a mode, and the rest are off |
| `RouteModes.OrderIrrelevant` | backend/internal/config/config.go:301-322 | the order of entries does not matter |
| `RouteModes.PrintAcceptedExactly` | backend/internal/config/config.go:312-314 | any listing of routes is accepted if and only if none comes twice |
| `RouteModes.PrintParses` | backend/internal/config/config.go:287-291 | printing any routes in any order and parsing returns them; of the rest the sale invoice follows the older setting and the others are off |
| `RouteModes.RoundTrip` | backend/internal/config/config.go:280-324 | a total assignment survives printing and parsing |
## Left out

- HTTP handlers, audit logs, notifications, metrics and exchange evidence: they do not affect the modelled state.
- The purchase-order path, the Shopee realtime `erp_send` action lease, set-product and document-profile resolution, dialog and warehouse checks: the sender sees them as arbitrary outcomes in `Sender.Options`.
- Writes to bill items outside the bill handler (catalog confirmation, applying a verified mapping to open items): the frozen-items results are about the bill handler's operations.
- Floating point: money is integer cents and quantities are reals, so binary rounding is not modelled; nor is rounding of line prices and VAT inside the payload builders, whose inputs the payload line holds.
- During a run the conversion mode, the bill's need for an amount review and its possible routes are constant (`Protocol.Policy`); catalog, settings and document number vary from send to send.
- Hashing and JSON encoding: fingerprints and payload bytes are modelled by what they encode, so equal hashes mean equal contents; index and item keys joined with control characters are tuples.
- Attempts.BillRepo.UpdateBillItemFields: override-field bookkeeping and stock reservations are not modelled.
- Attempts.BillRepo.ApplyMarketplaceMaster: the master's revision check and the reservation update are not modelled; the master read is arbitrary.
- Attempts.BillRepo.FinishSMLAttempt: the stock and reconciliation rows written in the same transaction are not modelled.
- Sender.PrepareSend: route configuration, document profile and dialog checks are one arbitrary answer each, in the place where the code makes them.
- Sender.DependencySnapshot: returns the generation only; the mapping-revision and set-hash maps stored beside it do not influence the protocol, and the database's freshness check is an arbitrary answer.
- Heartbeat.Beat: assumes that ticks are served when they fire and that a renewal returns within its timeout.
- AutoSmlJobs.BoundedFailures: one worker process, so a restart ends its workers; the shop-wide pause after repeated failures depends on other jobs and is not modelled.
- Lazada.ReadRows: starts from cells already read as amounts; finding the header, date parsing, decimal parsing and message texts are not modelled.
- AmountReview.ItemsPermuted: the marketplace item and line ids of an item come from the first row of its key, so they do depend on the order of the rows; the model's item does not carry them.
- Conversion.FromResolution: creating a reusable product master for an exact SKU, which happens only with conversion off, is not modelled; quantities are taken to be finite decimals, and the base quantity is exact where the code rounds it up at twelve decimals.
- DocNumbers.AllocateFreshDocNo: a database error in mid-search is not modelled. Document numbers typed by a user are outside it.
- DocNumbers.NeverRepeatsExactly: speaks of one prefix and format at a time; different formats can meet (`DocNumbers.FormatsMeet`), and so can different prefixes. Two-digit years repeat after a century.
- DocNumbers.RenderEqualExactly: a format is split into tokens from left to right, which is what the successive text replacements of the code amount to.
- DocNumbers.PreviewFreshDocNo: takes the ERP's proposed number to be the rendering of its next sequence.
- BulkJobs.BulkJob.RunBulkSendJob: another runner of the same job at the same time is not modelled.
- EnvFile.ReadEnv: white space is blank, tab and line breaks; values are single lines.
- TenantMode.Tenant.Run: the dated backup copy, the registry lookup and key derivation are not modelled; each file write is atomic.
