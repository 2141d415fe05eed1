# ATHR verification

A Dafny model of the parts of ATHR whose correctness spans several operations, with proofs over all inputs,
all interleavings and all reachable states. ATHR is an offline-first point of sale (`pos-electron`) with a
PostgreSQL back office (`backend`, `admin-web`).

`dafny verify dfyconfig.toml` checks everything.

## What is modelled

**The till's ledger.** `LocalDb` has the tables of the till's SQLite database and a function per handler:
selling, the outbox transitions, status updates, pulled pages, sequence alignment and restart recovery.
`Ledger` and `LedgerRuns` prove what every call and restart keeps: no committed sale is lost or rewritten,
terminal sequences strictly increase, invoice numbers differ, stock is conserved. `Terminal` is the process
around it: a memory copy, a file replaced by rename, `persistedMutation` and `initDb` statement by statement.
Every storage fault and every point of death is an input, and each handler is shown to be one atomic step.

**The sync protocol.** `SyncProtocol` is a transition system of till, driver, network and server. Each `await`
of `performSync` is a step boundary at which the cashier may sell, the server may receive any command ever sent
(late, twice, or not at all), a write may fail, and the process may crash. `SyncUploads` is its inductive
invariant, `SyncSafety` shows that it refines the ledger and proves exactly-once upload over whole runs,
`SyncPulls` does the same for catalog validity, cursor and page bound. `SyncOrder` is about the order of sends,
`StrandedSales` and `SyncLimits` about the sales a pull can overtake. `SyncDriver` is `performSync` and
`syncLoop` in their own form, loops over local variables, taking only steps of the protocol. The server is taken
at its documented word: the first invoice per `sync_id` wins.

**Purchasing.** `Purchasing`, `DiscountSplit`, `PurchaseReceipt` and `SupplierReturns` cover receipt preparation
(aggregation, two sorts, a largest-remainder split of the discount in integer cents) and the supplier-return
credit over whole sequences of returns.

**Pricing and coupons.** `PriceEntries` (versioned chains, demote before insert), `PriceBooks` and
`PriceBookClients` (the lifecycle one call at a time, and with clients interleaving), `PriceResolution` (bucketed index against a
plain scan) and `CouponRedemption` (insert, reserve, compensate, replay, by any number of interleaved clients).

**Smaller pieces.** `Money` and `AdminMoney` (two copies of the decimal parser and printer), `OfflineAccounting`
and `Decimals` (terminal sequences), `SaleValidation`, `CatalogPull`, `SyncPolicy`, `BusinessTime`, `Reports`,
`CountCache` and `Versions`.

Where the source changes fields, tables, files or maps step by step, the model has a class or a method with the
same statements and loops, proved against the functions the lemmas are about. Amounts are integer cents or exact
reals. `Arithmetic`, `Sequences`, `Text` and `Outcome` hold shared vocabulary.

## Where the code does not do what is said of it

- A comment in `coupon.repository.ts` (lines 188 to 190) calls the last error of the replay branch unreachable. It is
  reachable: `CouponRedemption.UnresolvedConflictIsReachable` is a run on a coupon with one use,
  `RefusalUnderneathIsUnresolved` does it on any coupon without capacity, and `LookUpFailsIffDeletedSince` is the exact
  condition over whole runs.
- A comment in `sync.ts` (lines 222 and 223) says stock is not pulled before every local sale is settled. The second
  listing shows pending rows only: in `SyncLimits.StrandedRowIsOvertaken` and `SyncLimits.RefusedRowIsOvertaken` the
  record of a failure is lost, and the next or the same sync pulls past the row it left sending.
  `StrandedSales.PullsAreSettledIffNoRecordLost` is the exact condition: the claim holds of a run precisely when no
  pull comes after such a loss without a restart in between.
- A pull response with a null cursor passes the driver's check as "unchanged" and is then stored as the text
  `null`. `CatalogPull.AcceptedPageMovesForwardIffNotNull` says this is the only accepted page that moves the
  stored cursor back, and `NullCursorJamsTheDriver` that no later page is accepted after it.
- A comment in `price-book.service.ts` (lines 120 to 128) says neither the creator nor the submitter of a price book
  may approve it. The check uses what was read before the write: `PriceBookClients.SubmitterCanApprove` is a run in
  which the submitter approves, and `SeparationIffNoStaleApproval` the exact condition, an approval on a read from
  before the approver's own submission. The creator can never approve.
- `update-policy.ts` orders pre-release identifiers with `localeCompare`, while section 11.4.2 of Semantic Versioning
  2.0.0 requires ASCII order: `Versions.LocaleOrderIsNotStandard` has two version texts the till ranks the other
  way round, `CompareIsStandardIffAscii` the exact condition.
- `business-time.ts` does not always start a business day at the first instant of the local day.
  `BusinessTime.DayBeginsRight` is the exact condition; `DayBeginsEarlyInTheWest` has zones in which it starts early.
- A supplier return can use up the line's credit before every unit is back: `SupplierReturns.CreditCanRunOutEarly`
  has a line of a prepared receipt, `CreditRunsOutIffValuesCoverLine` the exact condition over any run of returns.

## Model

| member | source | states |
|---|---|---|
| Ledger.HandleKeepsInv | pos-electron/electron/main.ts:1683-1987 | every successful handler keeps ledger and outbox rows paired under one id and sequence, sequences distinct and behind the counter, stock non-negative, and loses or rewrites no committed sale or payload |
| Ledger.CommitKeepsInv | pos-electron/electron/main.ts:1796-1842 | a committed sale gets a sequence above the counter and hence above every earlier sale |
| Ledger.RecoverEstablishesInv | pos-electron/electron/main.ts:971-995 | opening any consistent database succeeds, takes every row out of sending, catches the counter up with stored and acknowledged sequences, and loses nothing |
| Ledger.HighestStoredExists | pos-electron/electron/main.ts:254-266 | the length-then-text query always has an answer on a consistent ledger |
| Ledger.HighestStoredIsMaximum | pos-electron/electron/main.ts:254-266 | its answer is the numeric maximum of the stored sequences |
| Ledger.AlignKeeps | pos-electron/electron/main.ts:268-276 | realignment never lowers the counter and changes nothing else |
| LedgerRuns.RunKeepsInv | pos-electron/electron/main.ts:831-995 | from any point of any run of calls and restarts on, nothing committed is lost and every later sale is numbered above it |
| LedgerRuns.SequencesIncrease | pos-electron/electron/main.ts:1759-1764 | of two sales of a run the later has the greater sequence and another LOCAL invoice number, across restarts and realignments |
| LedgerRuns.InvoiceNumbersDiffer | pos-electron/electron/main.ts:1763-1764 | invoice numbers differ even between terminal codes, because the sequence can be read back |
| LedgerRuns.UploadOrderIsNumeric | pos-electron/electron/main.ts:1853-1862 | the ORDER BY of the outbox listing is the numeric order of the sequences |
| LedgerRuns.StockIsConserved | pos-electron/electron/main.ts:1796-1806 | between pulls the cached stock of every variant is its last pulled value less the quantities sold since, and never negative |
| LedgerRuns.AllLinesOrNone | pos-electron/electron/main.ts:1797-1806 | on distinct variants the line-by-line updates succeed exactly when the stock at the start covers every line |
| LedgerRuns.ShortOrReplayedSalesChangeNothing | pos-electron/electron/main.ts:1717-1724 | one short line refuses the whole sale, and a known sync_id changes nothing |
| LedgerRuns.PulledValueIsPageValue | pos-electron/electron/main.ts:2128-2133 | a committed page sets each stock entry to the page's quantity, the last entry of a variant counting |
| Terminal.Till.SaveDb | pos-electron/electron/main.ts:150-163 | the target file is the new export, or unchanged, at every fault and every point of death |
| Terminal.Till.PersistedMutation | pos-electron/electron/main.ts:578-601 | returns with the handler's step in memory and on disk, throws with both as before, or dies with exactly the old or the new state on disk; memory equals disk between handlers |
| Terminal.Till.Operate | pos-electron/electron/main.ts:1683-2147 | the statements of each handler compute its atomic step, or throw the step's error with memory possibly half written |
| Terminal.Till.MarkRowSending | pos-electron/electron/main.ts:1874-1895 | the guarded update and its row count are the step |
| Terminal.Till.MarkRowSent | pos-electron/electron/main.ts:1917-1952 | the two updates are the step, whichever row exists |
| Terminal.Till.WriteStatus | pos-electron/electron/main.ts:2017-2048 | writing the meta keys one by one is the step |
| Terminal.Till.AlignLocalSequence | pos-electron/electron/main.ts:268-276 | the check, the maximum loop and the write are the alignment step |
| Terminal.Till.SellStep | pos-electron/electron/main.ts:1683-1842 | the sale handler's checks in their order, replay, then the transaction |
| Terminal.Till.WriteSale | pos-electron/electron/main.ts:1796-1842 | the row-by-row writes give the committed state or the step's error |
| Terminal.Till.CheckPage | pos-electron/electron/main.ts:2050-2097 | the refresh check and the three validation loops give the step's error, or none exactly on an acceptable page |
| Terminal.Till.WritePulled | pos-electron/electron/main.ts:2089-2146 | resets, deletions and the three insert loops give the page's state |
| Terminal.Till.HighestStoredSaleSequence | pos-electron/electron/main.ts:254-266 | the scan returns the query's answer |
| Terminal.Till.RecoverInMemory | pos-electron/electron/main.ts:971-995 | the statements of recovery compute the restart step |
| Terminal.Till.InitDb | pos-electron/electron/main.ts:831-998 | opens what is on disk and saves the recovered state, or leaves the disk for the next start |
| Terminal.RestartKeeps | pos-electron/electron/main.ts:971-998 | after any history of handlers, faults and crashes a completed restart finds every sale, and no row is left sending |
| SyncUploads.NextKeepsUploads | pos-electron/src/sync.ts:162-220 | every step keeps the upload invariant: only committed commands travel, invoices are requested and one per sync_id, sent rows carry their invoice, the row in hand is sending or failed before it was sent; and no step reopens a sent row or shortens the server's book |
| SyncUploads.DueItemsAreListed | pos-electron/src/sync.ts:136-142 | the due rows are distinct pending rows in upload order |
| SyncUploads.InvoiceOfFinds | README.md:566-567 | the server's look-up finds an invoice exactly when one exists |
| SyncSafety.RunRefinesLedger | pos-electron/src/sync.ts:112-345 | the database of any protocol run is that of a run of ledger calls and restarts |
| SyncSafety.LedgerIsKept | pos-electron/electron/main.ts:971-977 | so the ledger results hold from any point of a protocol run on |
| SyncSafety.ExactlyOnceUpload | pos-electron/src/sync.ts:162-220 | over every interleaving: no committed sale or payload disappears; at most one invoice per sync_id, only for committed sales, with their payload and ledger total; every sent row has its invoice; sent is never left |
| SyncSafety.AllSentMeansOneInvoiceEach | pos-electron/src/sync.ts:162-176 | once every row is sent, sales and invoices match one to one |
| SyncSafety.UploadsInSequenceOrder | pos-electron/electron/main.ts:1858-1862 | the rows an upload loop has left are in the numeric order of their sequences |
| SyncOrder.SendsAscend | pos-electron/src/sync.ts:162-176 | any two sends of one sync, anywhere in a run, are of different sales, the later with the greater sequence |
| SyncSafety.CrashStrandsNothing | pos-electron/electron/main.ts:971-977 | after a crash every row is listed again unless it was sent or quarantined |
| SyncSafety.CleanUploadSendsAll | pos-electron/src/sync.ts:162-176 | from any reachable upload loop a run without faults sends every queued row, whatever the server already holds |
| SyncPulls.PartialCatalogIsNeverValid | pos-electron/src/sync.ts:303-312 | from the first intermediate page until the final page commits the stored and reported validity is empty, through crashes, failed syncs and statuses written back |
| SyncPulls.CursorNeverMovesBack | pos-electron/src/sync.ts:45-62 | with non-null cursors no run moves the reported cursor back, and a full refresh is never needed again once a page committed |
| SyncPulls.AtMostHundredPages | pos-electron/src/sync.ts:314-321 | no pull commits more than a hundred pages |
| SyncPulls.OnlyPagesMoveTheCursor | pos-electron/electron/main.ts:2143-2144 | every other step leaves the reported cursor and the need for a refresh alone |
| StrandedSales.StrandedIffRecordLost | pos-electron/src/sync.ts:177-199 | in every run, the rows marked sending that nobody is sending are exactly those whose record of a failure was lost since the last restart |
| StrandedSales.PullOvertakesLostRecords | pos-electron/src/sync.ts:222-252 | the sync goes on to pull exactly when no row is pending, and the sales it overtakes are then exactly those with a lost record; every other row is sent or quarantined |
| StrandedSales.PullsAreSettledIffNoRecordLost | pos-electron/src/sync.ts:222-252 | every pull of a run finds all sales settled exactly when none finds a record lost since the last restart |
| StrandedSales.KeptRecordsStrandNothing | pos-electron/src/sync.ts:187-191 | while every record of a failure is kept, no sale is overtaken |
| StrandedSales.LostUntilRestart | pos-electron/src/sync.ts:187-191 | a lost record stays lost until the till restarts, so every pull until then overtakes the sale |
| SyncLimits.StrandedRowIsOvertaken | pos-electron/src/sync.ts:177-199 | a lost request whose record is lost too does not stop the next sync from pulling |
| SyncLimits.RefusedRowIsOvertaken | pos-electron/src/sync.ts:177-193 | a final refusal whose record is lost does not stop the same sync from pulling |
| SyncDriver.GetOutbox | pos-electron/electron/main.ts:1853-1862 | the listing exists on every consistent ledger: the pending rows, each once, in order |
| SyncDriver.Sync.Upload | pos-electron/src/sync.ts:162-220 | the upload loop stops at the first retryable failure and skips rows that fail for good, taking only protocol steps |
| SyncDriver.Sync.SendAndRecord | pos-electron/src/sync.ts:172-176 | request, answer and record; leaves only a sent row or a failure |
| SyncDriver.Sync.CatchFailure | pos-electron/src/sync.ts:177-199 | the failure is recorded, or not, and only a retryable one ends the sync |
| SyncDriver.Sync.UploadPhase | pos-electron/src/sync.ts:136-252 | a pull is reached only after the due rows were tried and a second listing was empty |
| SyncDriver.Sync.Pull | pos-electron/src/sync.ts:275-322 | the pull loop ends with the catalog complete, or aborted |
| SyncDriver.Sync.PerformSync | pos-electron/src/sync.ts:112-345 | a successful sync leaves no page outstanding; a thrown one leaves the driver to the catch |
| SyncDriver.Sync.SyncLoop | pos-electron/src/sync.ts:347-395 | whatever the outside does, the driver ends idle and nothing committed, invoiced or sent was lost |
| CatalogPull.CommittedPageCompletesFormat | pos-electron/electron/main.ts:2050-2147 | after every committed page no full refresh is needed |
| CatalogPull.ApplyingTwiceIsOnce | pos-electron/electron/main.ts:2089-2146 | applying a page twice is applying it once |
| CatalogPull.AcceptedPageMovesForwardIffNotNull | pos-electron/src/sync.ts:284-301 | an accepted page keeps the stored cursor from moving back if and only if its cursor is not null |
| CatalogPull.NullCursorJamsTheDriver | pos-electron/electron/main.ts:2143 | after a null cursor is stored no page is accepted |
| SyncPolicy.StableRetryJitterMs | pos-electron/src/sync-policy.ts:55-69 | the hash loop computes the 32-bit FNV-1a jitter |
| SyncPolicy.DueWithinEighteenMinutes | pos-electron/src/sync-policy.ts:142-159 | a failed row is due between 15 seconds and 18 minutes after its last attempt |
| SyncPolicy.DelayGrowsWithAttempts | pos-electron/src/sync-policy.ts:44-53 | more failures never shorten the delay |
| Decimals.SequenceOrderIsNumeric | pos-electron/electron/main.ts:258-262 | on canonical decimal text, length then text is the numeric order |
| Decimals.PrintIsCanonical | pos-electron/electron/offline-accounting.ts:40-52 | printed numbers are canonical and read back |
| Decimals.PrintValue | pos-electron/electron/offline-accounting.ts:29-38 | canonical text is printed back unchanged |
| OfflineAccounting.MaxTerminalSequence | pos-electron/electron/offline-accounting.ts:40-48 | fails exactly on a malformed argument, otherwise returns one of them, or zero, that none exceeds |
| OfflineAccounting.MaximumFromMeaning | pos-electron/electron/offline-accounting.ts:40-48 | the running maximum is the least upper bound |
| OfflineAccounting.NextSequence | pos-electron/electron/offline-accounting.ts:50-52 | the next sequence is above every given one |
| SaleValidation.ValidateItems | pos-electron/electron/sale-validation.ts:90-128 | the walk with its mutable set computes the specified outcome |
| SaleValidation.RefusedAtFirstBadLine | pos-electron/electron/sale-validation.ts:90-128 | lines are refused exactly when one is bad, with the error of the first bad one |
| SaleValidation.AcceptedLines | pos-electron/electron/sale-validation.ts:90-128 | accepted lines have distinct variants and whole quantities from 1 to 1000 |
| Money.ToCentsIsNearest | pos-electron/electron/money.ts:5-20 | three fraction digits suffice: every accepted text becomes its nearest cent, ties away from zero |
| Money.FormatMoneyRoundTrip | pos-electron/electron/money.ts:5-34 | printing keeps the amount and is idempotent |
| Money.FormatMoneyIsCanonical | pos-electron/electron/money.ts:29-34 | two texts print alike exactly when they are the same amount |
| AdminMoney.CopiesAgree | admin-web/lib/money.ts:3-15 | the back office's parser agrees with the till's on every text |
| AdminMoney.LineTotalIsTheTillsLine | admin-web/lib/money.ts:27-36 | its line total is the till's price and tax of the line together |
| Purchasing.Aggregate | backend/src/purchasing/purchasing-accounting.ts:106-140 | the map loop lists every variant once with its totals, and fails exactly when a total leaves the range |
| Purchasing.SortedIsSummary | backend/src/purchasing/purchasing-accounting.ts:134-140 | sorting any listing of the totals gives the summary |
| Purchasing.SummaryIsUnique | backend/src/purchasing/purchasing-accounting.ts:106-140 | the summary depends on the totals alone |
| Purchasing.PermutingKeepsTotals | backend/src/purchasing/purchasing-accounting.ts:106-140 | reordering items keeps the totals |
| Purchasing.SplittingKeepsTotals | backend/src/purchasing/purchasing-accounting.ts:106-140 | splitting or merging lines of one variant and unit cost keeps the totals |
| DiscountSplit.Distribute | backend/src/purchasing/purchasing-accounting.ts:198-206 | the loop gives one cent to each of the first leftover lines and ends with none left |
| DiscountSplit.Split | backend/src/purchasing/purchasing-accounting.ts:165-225 | the shares are a largest-remainder split that sums to the discount |
| DiscountSplit.LeftoverFits | backend/src/purchasing/purchasing-accounting.ts:167-202 | the cents left after flooring fit the lines, and each line they reach has a remainder |
| DiscountSplit.SplitBounds | backend/src/purchasing/purchasing-accounting.ts:165-232 | each share lies in its line and less than a cent from the exact proportion |
| DiscountSplit.SplitIsUnique | backend/src/purchasing/purchasing-accounting.ts:191-206 | there is exactly one largest-remainder split |
| PurchaseReceipt.PreparePurchaseReceipt | backend/src/purchasing/purchasing-accounting.ts:106-286 | has the specified outcome on every validated command; the exactness check never throws |
| PurchaseReceipt.OutcomeIsCanonical | backend/src/purchasing/purchasing-accounting.ts:106-275 | commands with the same totals have the same lines, totals and fingerprint input |
| PurchaseReceipt.RearrangedCommandReplays | backend/src/purchasing/purchasing-accounting.ts:243-275 | a rearranged command has the same key and fingerprint input |
| PurchaseReceipt.CanonicalIdentifiesPurchase | backend/src/purchasing/purchasing-accounting.ts:243-267 | two accepted commands have the same fingerprint input exactly when they agree on header, number, discount and every variant's quantity and cost |
| PurchaseReceipt.ReceiptBalances | backend/src/purchasing/purchasing-accounting.ts:208-241 | costs, discounts and nets of the lines add up to the receipt, to the cent, with no line below zero |
| SupplierReturns.ReturnsNeverOverpay | backend/src/purchasing/purchasing-accounting.ts:54-104 | over any sequence of requests credits are non-negative, never exceed the line, equal it once all units are back, and no request is refused for exceeding it |
| SupplierReturns.FullReturnsAreWorthTheLine | backend/src/purchasing/purchasing-accounting.ts:54-104 | any two ways of returning everything are worth the same |
| SupplierReturns.ReceiptLinesReturnInFull | backend/src/purchasing/purchasing-accounting.ts:208-232 | every line of a prepared receipt refunds its net total |
| SupplierReturns.RunIsWorthItsValues | backend/src/purchasing/purchasing-accounting.ts:54-104 | after any sequence of requests the units back are those of the requests that fitted, and the credit is the line's once all are back, before that the sum of their rounded values, capped by the line |
| SupplierReturns.CreditRunsOutIffValuesCoverLine | backend/src/purchasing/purchasing-accounting.ts:83-94 | with units still out the credit is used up exactly when the rounded values of what came back cover the line |
| SupplierReturns.CreditCanRunOutEarly | backend/src/purchasing/purchasing-accounting.ts:83-94 | on a line of a prepared receipt the first of two units takes the whole credit |
| SupplierReturns.PartialReturnExhausts | backend/src/purchasing/purchasing-accounting.ts:83-94 | on any state one partial return uses the credit up exactly when its rounded value covers what is left |
| CouponRedemption.RedemptionIsExact | backend/src/promotions/coupon.repository.ts:163-222 | for any interleaving the use count is the number of counted rows, within the cap, no key counted twice, and equal to the number of rows when no call is in flight |
| CouponRedemption.RunKeepsInv | backend/src/promotions/coupon.repository.ts:163-222 | a counted row is never deleted and stays counted |
| CouponRedemption.RowsAreCountedOrHeld | backend/src/promotions/coupon.repository.ts:163-222 | rows number the use count plus the calls still holding one |
| CouponRedemption.CountedKeyOnlyReplays | backend/src/promotions/coupon.repository.ts:171-197 | a counted key can only be replayed |
| CouponRedemption.CompensationUndoesTheInsert | backend/src/promotions/coupon.repository.ts:201-220 | a refused call's insert, failed reserve and delete leave the tables as they were |
| CouponRedemption.RefusalUnderneathIsUnresolved | backend/src/promotions/coupon.repository.ts:184-220 | on any coupon without capacity, a refused call deletes its row under another call's replay, whose look-up then fails |
| CouponRedemption.UnresolvedConflictIsReachable | backend/src/promotions/coupon.repository.ts:184-197 | a run from an unused, active coupon with one use in which this happens |
| CouponRedemption.LookUpFailsIffDeletedSince | backend/src/promotions/coupon.repository.ts:184-197 | whatever runs between a conflicting insert and its look-up, the look-up fails exactly if the key's row was deleted uncounted and none inserted since, and never once the row is counted |
| CouponRedemption.CouponTables.Redeem | backend/src/promotions/coupon.repository.ts:163-222 | statement by statement with others running between: a redemption that is not a replay stays counted, a call refused for capacity leaves no row |
| CouponRedemption.CouponTables.Compensate | backend/src/promotions/coupon.repository.ts:209-220 | deletes the call's own row and names the reason from the coupon's status |
| PriceEntries.RunKeeps | backend/src/pricing/price-book.repository.ts:191-304 | over any interleaving of reads, creations and supersessions the rows form one chain per slot and none is rewritten |
| PriceEntries.ExactlyOneActive | backend/src/pricing/price-book.repository.ts:253-304 | every slot with an entry has exactly one active entry |
| PriceEntries.VersionsHaveNoGaps | backend/src/pricing/price-book.repository.ts:253-304 | versions of a slot are 1 to n, each held by one entry |
| PriceEntries.LinksEndAtActive | backend/src/pricing/price-book.repository.ts:274-303 | superseded_by links raise the version by one each and end at the active entry |
| PriceEntries.DemoteBeforeInsert | backend/src/pricing/price-book.repository.ts:274-303 | inserting before demoting is always rejected by the index, demoting first never is |
| PriceEntries.SecondSupersedeIsRefused | backend/src/pricing/price-book.repository.ts:274-284 | of two clients that read the same entry only one supersedes it |
| PriceEntries.PriceBookEntries.CreateEntry | backend/src/pricing/price-book.service.ts:231-263 | succeeds exactly on a manageable book, with a scope, a permitted price and an empty slot, and names the first reason otherwise |
| PriceEntries.PriceBookEntries.SupersedeEntry | backend/src/pricing/price-book.service.ts:272-291 | the successor inherits the omitted terms its predecessor really has and takes the next version, although it was read earlier |
| PriceBooks.RunIsControlled | backend/src/pricing/price-book.service.ts:113-223 | over calls one at a time status only moves forward, from approval on an approver differs from creator and submitter, and no group has two active defaults |
| PriceBooks.OneStepAtATime | backend/src/pricing/price-book.service.ts:113-223 | any call moves any book by at most one step of the lifecycle, forward |
| PriceBooks.ActivationReplaces | backend/src/pricing/price-book.service.ts:181-219 | activating a default ends the previous one and touches no other book |
| PriceBookClients.InterleavedRunIsControlled | backend/src/pricing/price-book.service.ts:113-223 | with reads and writes of clients interleaving, status only moves forward, signatures stay, no creator approves, and no group has two active defaults |
| PriceBookClients.SelfApprovalIffStale | backend/src/pricing/price-book.service.ts:129-147 | an approval makes a book self-approved exactly when it read a draft the approver has submitted since |
| PriceBookClients.SeparationIffNoStaleApproval | backend/src/pricing/price-book.service.ts:120-147 | over a run no submitter approves exactly when no approval used a read from before the approver's own submission |
| PriceBookClients.SubmitterCanApprove | backend/src/pricing/price-book.service.ts:129-147 | a run from no books in which the submitter approves |
| PriceBooks.ActivationIsGuarded | backend/src/pricing/price-book.service.ts:181-219 | on any earlier read the transaction succeeds exactly on a scheduled book and never meets the index |
| PriceBookClients.PriceBookTable.UpdateMany | backend/src/pricing/price-book.repository.ts:113-116 | the guarded write changes the row and the index of active defaults exactly when id and status match |
| PriceBookClients.PriceBookTable.TransitionBook | backend/src/pricing/price-book.repository.ts:106-126 | succeeds exactly on the expected status; otherwise nothing changes and a second read names the error |
| PriceBookClients.PriceBookTable.SubmitBook | backend/src/pricing/price-book.service.ts:113-118 | its statements are the lifecycle step |
| PriceBookClients.PriceBookTable.ScheduleBook | backend/src/pricing/price-book.service.ts:149-155 | its statements are the lifecycle step |
| PriceBookClients.PriceBookTable.EndBook | backend/src/pricing/price-book.repository.ts:152-162 | its statements are the lifecycle step, and the book leaves the index |
| PriceBookClients.PriceBookTable.ApproveBook | backend/src/pricing/price-book.service.ts:129-147 | with others running between read and write, the approver is never the creator, and the submitter only after reading a draft |
| PriceBookClients.PriceBookTable.ActivateBook | backend/src/pricing/price-book.service.ts:163-179 | with others running between read and transaction, it activates a book it read as scheduled or changes nothing itself |
| PriceBookClients.PriceBookTable.RunActivation | backend/src/pricing/price-book.service.ts:181-219 | the transaction's statements are the atomic step, rolled back when the guard fails |
| PriceResolution.BuildIndex | backend/src/pricing/pricing.service.ts:238-247 | the loop puts exactly the entries of each scope, in order, into its bucket |
| PriceResolution.ScopeKeyInjective | backend/src/pricing/pricing.service.ts:232-235 | scope keys collide only for the same scope |
| PriceResolution.QuoteRefinesScan | backend/src/pricing/pricing.service.ts:294-323 | quoting over the index picks the entry a linear scan picks |
| PriceResolution.QuoteMeaning | backend/src/pricing/pricing.service.ts:294-323 | which is the first qualifying entry none beats by scope, then break; none only if nothing qualifies |
| PriceResolution.PermutationInvariant | backend/src/pricing/pricing.service.ts:294-323 | the order of entries does not matter when no scope repeats a break |
| PriceResolution.WinnerIsMonotone | backend/src/pricing/pricing.service.ts:294-323 | buying more never moves the winner to a less specific scope or a smaller break |
| PriceResolution.CalculateMany | backend/src/pricing/pricing.service.ts:175-202 | the first priced line without an active tax code ends the call; otherwise it fails naming every unresolvable line in order, or maps each variant to its quote |
| PriceResolution.PricedMeaning | backend/src/pricing/pricing.service.ts:187-201 | a variant listed twice keeps the quote of its last line |
| BusinessTime.NextDayIsNextUtcDay | backend/src/common/business-time.ts:62-96 | the calendar's next day is the next UTC day, over month ends, leap days and year ends |
| BusinessTime.RangesTile | backend/src/common/business-time.ts:62-96 | ranges [a, b] and [b + 1, c] tile [a, c] without gap or overlap, whatever the zone does at the seam |
| BusinessTime.TwoGuessesFindMidnight | backend/src/common/business-time.ts:35-45 | around one clock change two guesses find local midnight whenever some instant shows it, in any zone |
| BusinessTime.DayBeginsRight | backend/src/common/business-time.ts:35-45 | exactly when the result is the first instant of the local day, by where the change falls |
| BusinessTime.DayBeginsRightInTheEast | backend/src/common/business-time.ts:35-45 | east of Greenwich, with clocks that skip midnight from midnight on, exactly unless midnight is shown twice |
| BusinessTime.DayBeginsEarlyInTheWest | backend/src/common/business-time.ts:35-45 | west of Greenwich a day whose clocks go forward at midnight begins early by as much |
| Reports.SumMoney | backend/src/common/money.ts:34-38 | the loop is the sum |
| Reports.ProfitByItem | backend/src/reports/reports.service.ts:165-260 | one row per variant sold or returned, with its totals, most profitable first |
| Reports.RowsConserve | backend/src/reports/reports.service.ts:165-260 | the rows' costs add up to the sales report's total cost, and profit is revenue less cost |
| Reports.SalesAddUp | backend/src/reports/reports.service.ts:22-91 | the report of two tiling ranges is the sum of their reports |
| Reports.ReportsTile | backend/src/reports/reports.service.ts:18-91 | every figure over [a, c] is the sum over [a, b] and [b + 1, c] |
| CountCache.CacheIsFresh | backend/src/products/products.service.ts:122-145 | over any interleaving every cached count was started after the latest invalidation, for its own key, and at most 200 keys are held |
| CountCache.SlowCountIsDropped | backend/src/products/products.service.ts:130-140 | a count from before an invalidation is never reinstalled |
| CountCache.KeysContainTenant | backend/src/products/products.service.ts:123-124 | no two tenants share a key |
| CountCache.ProductCounts.CachedCount | backend/src/products/products.service.ts:122-141 | returns the cached promise on a hit and starts a fresh one otherwise |
| CountCache.ProductCounts.Resolve | backend/src/products/products.service.ts:130-136 | installs the number only while its promise is still cached |
| CountCache.ProductCounts.Reject | backend/src/products/products.service.ts:134-137 | a failed count drops its slot only while its promise is still cached |
| CountCache.ProductCounts.InvalidateCounts | backend/src/products/products.service.ts:143-145 | empties the cache and starts a new epoch, whatever is still being counted |
| Versions.CompareVersions | pos-electron/electron/update-policy.ts:35-58 | the two index loops compute the specified comparison, and throw exactly on unparsable text |
| Versions.CompareIsPrecedence | pos-electron/electron/update-policy.ts:27-58 | its sign is the precedence of section 11 of Semantic Versioning 2.0.0 with localeCompare in place of ASCII order, for any consistent comparator |
| Versions.CompareIsStandardIffAscii | pos-electron/electron/update-policy.ts:27-58 | it is the precedence of the standard on all version texts the standard allows exactly when localeCompare orders identifiers with letters or hyphens as ASCII |
| Versions.LocaleOrderIsNotStandard | pos-electron/electron/update-policy.ts:32 | a collation with "a" before "B" ranks the text 1.0.0-a below 1.0.0-B, against the standard |
| Versions.PrecedenceIsTotalOrder | pos-electron/electron/update-policy.ts:27-58 | sign-antisymmetric, reflexive and transitive, whatever the collation |
| Versions.UpdatesAscend | pos-electron/electron/update-policy.ts:69-104 | any chain of accepted updates strictly ascends and never returns to a version |

## Left out

- SyncSafety.ExactlyOnceUpload: the back office's sale service is not part of this model; its documented promise that the first invoice per `sync_id` wins is the server's step. The start has no row marked sent yet.
- SyncPulls.CursorNeverMovesBack: requires non-null cursors; what a null one does is proved apart, in both directions.
- StrandedSales.PullOvertakesLostRecords: speaks of the sales there are at the second listing; one committed after it can be overtaken as well.
- PriceBookClients.InterleavedRunIsControlled: a transaction is one atomic step; two activations racing inside theirs are the database's isolation.
- PriceResolution.CalculateMany: a quote is the winning entry; whether a variant has an active tax code is an argument, and the numbers derived from both are not modelled.
- CouponRedemption.RedemptionIsExact: one coupon with a fixed cap; the per-customer cap is read before the insert and is a race the source documents.
- Versions.CompareIsPrecedence: numbers are exact, and `localeCompare` is any consistent comparator, under which different texts may be equal.
- BusinessTime.DayBeginsRight: at most one clock change within a day of that midnight; the zone database itself is a parameter.
- Terminal.Till.InitDb: schema creation, column migrations and the wall clock are left out.
- SyncPolicy.StableRetryJitterMs: hashes characters; ids outside the Basic Multilingual Plane, which sync ids never contain, would be hashed as two units.
- Decimal and double arithmetic: integer cents, millionths or exact reals are used within the ranges the source checks; `fromCents` as a double is not modelled.
- JSON text, SHA-256 of the fingerprint, NFKC normalisation of invoice numbers, error message texts, timestamps of rows other than attempts.
- `localeCompare` in purchasing is the order of the variants' ranks.
- The order of outbox rows that share a sequence (by creation time) is left open.
- The encrypted copy of the acknowledged sequence is an input of restart and alignment, not a state.
- `BigInt(text)` is a parameter of which only its values on the empty text and on `null` are fixed.
- Timers of `startSync`, compatibility payloads and heartbeat contents: only that these calls may throw.
- Held sales, factory reset, enrolment, printing, diagnostics, windows, HTTP and authentication.
- Bundles, promotion evaluation, best sellers and inventory valuation: no invariant beyond their formulas.
- PriceEntries.PriceBookEntries.CreateEntry: the status of the book and the policy's answer, read beforehand, are arguments.
