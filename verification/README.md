# Verified models of a marketplace back office

These Dafny modules model the parts of the marketplace back end where money, privileges and limits are
decided, and prove what those parts keep over every run:

- the double-entry accounting engine (`Money`, `Chart`, `AuditChain`, `Journal`, `Statements`, `Books`,
  `LedgerService`) with its laws (`Integrity`, `Reconciliation`, `Agreement`, `Periods`, `Reversals`,
  `Sweeps`, `Deferred`, `Amortisation`, `Histories`, `Conservation`, `Cycles`, `EventLaws`, `CallOutcomes`,
  `ManualEntries`, `Deletion`);
- affiliate conversions and payouts (`Affiliates`, `AffiliateLaws`);
- dual approval, kill switches, fee schedules, versioned settings and the action log of the admin console
  (`AdminConsole`, `ConsoleLaws`, `ConsoleOutcomes`, `Settings`, `AdminLog`);
- the edge rate limiter (`RateLimiter`, `RateLimits`);
- saved-search alerts (`Alerts`) and the personalised feed (`Feed`, `FeedScores`, `FeedLaws`).

`dafny verify dfyconfig.toml` checks everything.

## How the models are built

Each service that updates rows in place is a class (`Ledger`, `AffiliateService`, `ConsoleService`,
`PlatformSettings`, `ActionLog`, `EdgeRateLimiter`, `SavedSearch`) whose fields are the tables it writes. A
table is the sequence of its rows in primary-key order. Every method is proved to take the state to exactly
what a specification function says (`Step`, `Run` and the functions they call), with loops proved against
recursive definitions; the laws are then proved about every run of that specification. An exception is an
`Error` value, and a call that is not wrapped in a transaction may return one after part of its work was
kept: `Outcome` carries the state as well as the error.

All statements about the journal (trial balance, profit and loss, balance sheet, account balances,
per-party balances) are one query, `Net`, with different filters.

## What the code does differently from its intent

These are results, not assumptions. Each is a theorem, with its exact condition wherever there is one.

- A partial refund of a held order drops the whole row from the escrow sub-ledger but only the refunded
  amount from account 2000 (`Agreement.PartialRefundBreaksAgreement`). `Agreement.AgreementKeptIffSpared`
  says for every call of the engine exactly when the escrow and payable reconciliations keep their
  difference, and `Reconciliation.DriftIsExact` by how much each call moves it.
- `post_cod_reconciled` is not wrapped in a transaction: without a seller it raises after its entry was
  committed, and the payable agreement is lost (`Agreement.FailureLeavesBooks`).
- A statement snapshot uses the first day of the *next* month as its inclusive bound, so a posting on that
  day still changes the asset column of a month that is closed and locked
  (`Periods.FirstOfNextMonthLeaksIntoClosedMonth`). Only the profit-and-loss columns are frozen; when the three
  balance-sheet columns move is exact (`Periods.PostingMovesAssetColumn` and its two companions).
- Reversals drop the party of the lines, so they do not undo per-party balances
  (`Reversals.ReversalUndoesPartyIff`).
- The journal digest covers neither the key, time and approver of an entry nor the party, text and currency of
  its lines (`Integrity.PayloadOmissions`). Chain verification cannot see a truncated tail
  (`AuditChain.DeletionDetected`).
- A deferred row of fewer cents than months stops every sweep that comes to it
  (`Histories.NextMonthGoesThroughIff`, `Histories.SweepsGoThroughIff`); an asset of fewer cents than months is
  marked fully amortised with nothing amortised (`Amortisation.FullyAmortisedIff`).
- Requests that read the same microsecond share one sorted-set member. With up to m requests per tick the limit
  holds exactly when m·min(limit, window) stays within it, for every realistic band exactly when no two requests
  tie (`RateLimits.LimitWithTiesIff`, `RateLimits.LimitNeedsDistinctTicks`); any number on one tick passes
  (`RateLimits.TiesAreNotLimited`). The docstring of the bucket fallback promises the band limit: that holds
  exactly in windows aligned with the buckets (`RateLimits.FallbackLimitIff`), elsewhere up to twice the limit is
  accepted, and reached (`RateLimits.BucketFallbackLimit`, `RateLimits.TwiceTheLimitIsReached`).
- A saved search announces a product again that the user was told about, as soon as more than 200 are known and
  not before (`Alerts.NextRunRepeatsNothingIff`, `Alerts.DeliveriesAreDisjoint`); new matches beyond the first
  fifty are absorbed without ever being announced (`Alerts.AllNewAnnouncedIff`, `Alerts.BeyondFiftyIsNeverAnnounced`).
- Every product that is kept scores at least 1.94, so the lower bound of the discoveries drops nothing
  (`Feed.ScoreRange`, `FeedLaws.NothingFallsThrough`); discoveries alone never make a feed
  (`FeedLaws.FeedIsEmptyIff`).
- Rejections have neither a level nor an expiry check. The compliance figure is 100 in every run, because deleting
  a user moves references to a placeholder instead of clearing them (`ConsoleLaws.ComplianceAlwaysFull`); but once
  both the submitter and the admin who decided are deleted, the stored request shows the placeholder as both
  (`ConsoleLaws.FourEyesShownIff`, `ConsoleLaws.FourEyesCanBeLost`).
- Deleting a user rewrites hashed columns: the poster of journal entries and the admin of logged actions. Unless
  the digest collides the chains then break at the first such row (`Deletion.JournalVerifiesIff`, `Deletion.LogVerifiesIff`). What open rows
  owed a deleted seller moves to the placeholder without its journal lines (`Deletion.DeletionMovesPayableGap`).
- The header of the accounting services lists a `correct_entry`; the code has no such function.

## Model

| member | source | states |
|---|---|---|
| Money.CommissionIsNearest | apps/accounting/services.py:74-81 | a commission is the one integer within half a cent of gross·rate/10000, ties upwards: both directions |
| Money.RoundingIsOdd | apps/accounting/services.py:74-76 | rounding a negated amount negates the rounding: charges and their corrections cancel |
| Money.CommissionBounds | apps/accounting/services.py:79-81 | for rates up to 100% a commission lies between 0 and the gross, so the seller's share is never negative |
| Money.CommissionMonotone | apps/accounting/services.py:79-81 | a larger gross or a higher rate never lowers the commission |
| Money.AccumulatedError | apps/accounting/services.py:74-81 | the rounding error of n commissions stays within n half-cents of the exact total |
| Money.SplittingError | apps/accounting/services.py:74-81 | splitting an amount into n parts moves the total commission by at most n/2 cents |
| Money.SplittingErrorIsTight | apps/accounting/services.py:74-81 | n/2 is attained, for every even n |
| Money.RoundHalfEvenIsNearest | apps/affiliates/service.py:144-146 | affiliate commissions are the nearest integer with ties to even: both directions |
| Chart.BalanceSheetGroupsDisjoint | apps/accounting/chart_of_accounts.py:22-95 | no account is in two of the six balance-sheet groups |
| Chart.ExpenseGroupsDisjoint | apps/accounting/chart_of_accounts.py:89-91 | cost of revenue, operating expenses and income tax do not overlap |
| Chart.GroupsCoverChart | apps/accounting/chart_of_accounts.py:22-97 | an account code has a type if and only if it lies in one of the six groups, 6500 included |
| AuditChain.SealExtends | apps/accounting/models.py:161-177 | sealing a row onto an intact chain numbered from 1 gives such a chain again |
| AuditChain.SealedNumbering | apps/accounting/models.py:168-175 | sealed rows are numbered 1, 2, 3, ... without a gap |
| AuditChain.HeadCommitsToHistory | apps/core/audit_chain.py:4-18 | two sealed chains with the same head digest are equal row by row, unless the digest collides on two of their rows |
| AuditChain.DeletionDetected | apps/core/audit_chain.py:42-67 | cutting out a block of rows leaves a chain that verifies if and only if the block is empty or a suffix |
| AuditChain.AlterationDetected | apps/core/audit_chain.py:68-80 | altering a row's content goes unnoticed if and only if the digest collides there; otherwise the break is located at that row |
| AuditChain.RewritingDetected | apps/core/audit_chain.py:57-81 | rewriting any number of rows in place goes unnoticed if and only if the digest collides on each of them |
| AuditChain.RewritingLocated | apps/core/audit_chain.py:60-80 | otherwise the break is at the first rewritten row that does not collide |
| AuditChain.VerifyChain | apps/core/audit_chain.py:42-81 | the walk accepts exactly the intact chains, and otherwise reports the first row that breaks a link |
| Journal.PostedEntryIsSound | apps/accounting/services.py:102-130 | an accepted posting is balanced, positive, in a period derived from its date, and every line goes one way on a known account |
| Journal.GoodLinesTotal | apps/accounting/models.py:198-208 | lines that satisfy the check constraint have non-negative totals, and a positive one if and only if there are any lines |
| Journal.NetUnpicked | apps/accounting/services.py:482-494 | entries a query does not select leave its net unchanged |
| Journal.NetSplit | apps/accounting/services.py:482-499 | the net over two disjoint groups of accounts is the sum of their nets, under every period, date and party filter |
| Journal.NetWholeTable | apps/accounting/services.py:102-106 | over all accounts a sound journal nets to zero under every period and date filter |
| Statements.TrialBalance | apps/accounting/services.py:458-479 | the loop over the account table gives the specified rows and column totals |
| Statements.RowFor | apps/accounting/services.py:462-476 | an account has its one row, net in the proper column, exactly when it had turnover |
| Statements.ColumnsDifference | apps/accounting/services.py:458-479 | the two columns differ by the net of the listed accounts: netting per account loses nothing |
| Statements.RowIsListedIffUsed | apps/accounting/services.py:463-476 | of a sound journal the trial balance lists an account if and only if some posting up to the date names it, with its balance in one column and nothing in the other |
| Statements.TrialBalanceBalances | apps/accounting/services.py:458-479 | the trial balance of a sound journal balances at every date |
| Statements.GroupsAddUp | apps/accounting/services.py:524-535 | the nets of the six groups add up to the net of the whole chart |
| Statements.BalanceSheetBalances | apps/accounting/services.py:524-540 | assets = liabilities + equity + retained earnings if and only if accounts outside the chart net to zero; always so on the seeded chart |
| Statements.BalanceSheetTiesToTrialBalance | apps/accounting/services.py:524-544 | at every date assets are debit column minus credit column of the asset rows of the trial balance, liabilities, equity and retained earnings credit minus debit column of theirs; the flag holds if and only if the reported columns are equal |
| Statements.ContraAssetsNetDown | apps/accounting/services.py:482-494 | assets are the natural balances of the asset accounts, the two contra accounts counting against the others |
| Statements.LiabilitiesAreNaturalBalances | apps/accounting/services.py:452-455 | liabilities are the natural balances of their accounts |
| Statements.RetainedAreNaturalBalances | apps/accounting/chart_of_accounts.py:68-92 | retained earnings are the natural balances of revenue and interest income less those of every expense and other charge |
| Statements.PnlIsOneNet | apps/accounting/services.py:502-521 | the net profit of a period is minus the net of all its revenue, expense and other accounts |
| Statements.PeriodsPartitionJournal | apps/accounting/services.py:482-494 | over any list of distinct periods that covers the journal, the period nets of any accounts add up to their overall net |
| Statements.RetainedEarningsAreAllProfits | apps/accounting/services.py:502-540 | retained earnings on the balance sheet are the sum of the net profits of all periods |
| LedgerService.Ledger.constructor | apps/accounting/services.py:59-67 | a new ledger has an empty journal and no rows besides the given deferred rows and assets |
| LedgerService.Ledger.PostJournal | apps/accounting/services.py:88-136 | lock, balance and empty checks in this order, then lines one by one; entry, lines and seal are kept together or not at all |
| LedgerService.InsertLines | apps/accounting/services.py:118-130 | the first line with an unknown account or against the check constraint decides the error |
| LedgerService.Totals | apps/accounting/services.py:102-103 | both totals are the sums over all lines |
| LedgerService.Ledger.ReverseEntry | apps/accounting/services.py:139-151 | posts the mirrored lines without party, linked to the original |
| LedgerService.Ledger.PostEvent | apps/accounting/services.py:246-436 | the whole new state and error of each event that posts one entry (fees, top-ups, transfers, COD collection and remittance, shortfalls with their receivable, chargebacks, vouchers, IVA) |
| LedgerService.Ledger.BuyerPaid | apps/accounting/services.py:158-178 | posts once per order and opens a held escrow row of the same amount |
| LedgerService.Ledger.DeliveryConfirmed | apps/accounting/services.py:181-213 | releases every row that is not released yet into commission and payable, or undoes everything |
| LedgerService.Ledger.SellerPayout | apps/accounting/services.py:217-243 | pays the total of exactly the seller's accrued rows in one entry, marks those rows paid with the batch, and reports how many |
| LedgerService.SelectDue | apps/accounting/services.py:224-227 | selects exactly the accrued rows of the seller and their total |
| LedgerService.MarkRows | apps/accounting/services.py:238-240 | marks the selected rows and no others |
| LedgerService.Ledger.WalletSpend | apps/accounting/services.py:270-286 | always posts, and opens an escrow row only when the order has none |
| LedgerService.Ledger.CodReconciled | apps/accounting/services.py:323-338 | posts commission and payable; without a seller the entry stays and the call raises |
| LedgerService.Ledger.Refund | apps/accounting/services.py:363-391 | draws on 2020 for released orders and on 2000 otherwise, and claws the order's row back wholly or partially |
| LedgerService.Ledger.AdjustReserve | apps/accounting/services.py:592-608 | raises or releases account 2050 by the difference to the expected loss, or posts nothing |
| LedgerService.Ledger.FxRevaluation | apps/accounting/services.py:690-705 | posts a rounded gain or loss, nothing for zero |
| LedgerService.Ledger.RecogniseRow | apps/accounting/services.py:626-646 | one row of the monthly recognition, remainder in the last month |
| LedgerService.Ledger.RecogniseDeferredRevenue | apps/accounting/services.py:621-647 | the sweep keeps the rows done before an exception, and reports one recognised row per entry posted |
| LedgerService.Ledger.AmortiseRow | apps/accounting/services.py:659-676 | one asset of the monthly amortisation, capped at its book value |
| LedgerService.Ledger.AmortiseCapitalised | apps/accounting/services.py:654-677 | the sweep keeps the assets done before an exception, and reports one amortised asset per entry posted |
| LedgerService.Ledger.LockPeriod | apps/accounting/services.py:742-749 | locks one period and changes nothing else |
| LedgerService.Ledger.UnlockPeriod | apps/accounting/services.py:752-760 | unlocks a period only if it has a row |
| LedgerService.Ledger.SnapshotFinancials | apps/accounting/services.py:779-809 | stores both statements of a period, replacing an earlier snapshot of it |
| LedgerService.Ledger.MonthEndClose | apps/accounting/services.py:763-772 | reconciles, proves the trial balance (which always balances), snapshots, and locks if asked |
| LedgerService.Ledger.ReconcileSubLedgers | apps/accounting/services.py:547-577 | the reported differences are the escrow gap and the payable gap, balanced exactly when they are zero |
| LedgerService.Ledger.RequestManual | apps/accounting/views.py:110-124 | stores a pending request for balanced, non-empty lines |
| LedgerService.Ledger.DecideManual | apps/accounting/views.py:130-167 | a pending request is rejected or posted by someone other than its requester; anything else changes nothing |
| Books.FindOrder | apps/accounting/services.py:165-186 | finds a row of the order if and only if there is one |
| Integrity.StepGrows | apps/accounting/services.py:88-136 | every call, failing or not, changes the journal at most by one sound entry sealed onto its tail, in an open period |
| Integrity.StepKeepsFrame | apps/accounting/services.py:158-809 | which call may change which table: each table is left alone by all others |
| Integrity.StepKeepsValid | apps/accounting/services.py:88-136 | every call keeps the journal sound and its chain sealed |
| Integrity.RunKeepsValid | apps/accounting/services.py:5-9 | in every run the journal stays sound, sealed and append-only |
| Integrity.StatementsAlwaysBalance | apps/accounting/services.py:458-540 | in every reachable state and at every date the trial balance balances, and the balance sheet does if and only if accounts outside the chart net to zero |
| Integrity.JournalHeadCommits | apps/accounting/models.py:139-177 | reachable journals are numbered 1..n, and two with the same head digest agree on all hashed content of every entry, lines included, or the digest collides |
| Integrity.JournalNumbering | apps/accounting/models.py:161-177 | the stored sequence numbers of a sealed journal are its positions, counted from 1 |
| Integrity.PayloadOmissions | apps/accounting/models.py:139-159 | of the modelled columns, two entries have the same hashed content if and only if they differ at most in key, time, approver, chain fields, and the party, text and currency of their lines |
| Reconciliation.ReconcileEscrow | apps/accounting/services.py:552-577 | the loop adds up the held and releasable rows; difference = rows minus the natural balance of 2000 |
| Reconciliation.ReconcilePayables | apps/accounting/services.py:557-577 | the loop adds up the accrued and adjusting rows; difference = rows minus the natural balance of 2020 |
| Reconciliation.RecordRecon | apps/accounting/services.py:565-577 | a record compares the sub-ledger with the credit balance of its parent account |
| Reconciliation.PayoutMoves | apps/accounting/services.py:224-240 | marking rows paid lowers the payable total of a scope by the amount paid less the adjustments, for the paid seller only |
| Reconciliation.BuyerPaidDrifts | apps/accounting/services.py:158-178 | moves the escrow gap only when the cash account is 2000 itself |
| Reconciliation.WalletSpendDrifts | apps/accounting/services.py:270-286 | moves the escrow gap by the amount exactly when the order already has a row |
| Reconciliation.DeliveryDrifts | apps/accounting/services.py:181-213 | a row that was held moves from escrow to payable without any gap; a clawed-back one opens a gap of its gross |
| Reconciliation.CodReconciledDrifts | apps/accounting/services.py:323-338 | accrues the payable in both places |
| Reconciliation.RefundDrifts | apps/accounting/services.py:363-391 | the gap moves by the refund drawn on escrow less the gross of a row that was held |
| Reconciliation.PayoutDrifts | apps/accounting/services.py:217-243 | the payable gap moves by the adjustments paid, since the sub-ledger total leaves them out |
| Reconciliation.DriftIsExact | apps/accounting/services.py:158-391 | every call that goes through moves the escrow gap and the payable gap, overall or for one party, by exactly its drift |
| Agreement.GuardsAreExact | apps/accounting/services.py:158-436 | for each call that goes through, the drift is zero if and only if guards that can be read off before the call hold |
| Agreement.EventGuardsExact | apps/accounting/services.py:246-436 | the guards of the table-free events: vouchers, IVA, chargebacks and odd cash accounts are exactly those that break agreement |
| Agreement.AgreementKeptIffSpared | apps/accounting/services.py:547-577 | a call that goes through keeps the reconciliation differences if and only if its guards hold |
| Agreement.CodFailureMoves | apps/accounting/services.py:323-338 | a COD reconciliation without a seller leaves 2020 credited with no row behind it |
| Agreement.RecognitionPosting | apps/accounting/services.py:193-201 | a recognition posting goes through if and only if the period is open, its accounts are known and both the commission and the rest are positive |
| Agreement.FailureLeavesBooks | apps/accounting/services.py:323-338 | a call that raises leaves the books unchanged if and only if it is not a COD reconciliation that could post (a guard on period, accounts and commission) but has no seller |
| Agreement.StepKeepsRows | apps/accounting/services.py:158-391 | every call keeps escrow rows positive and payable rows free of adjustments |
| Agreement.OrdinaryRunsStayReconciled | apps/accounting/services.py:547-562 | after any run of ordinary calls both reconciliation differences are what they were, overall and seller by seller: from reconciled books, zero |
| Agreement.PartialRefundBreaksAgreement | apps/accounting/services.py:384-391 | a partial refund of a held order lowers the escrow gap by the part that was not refunded |
| Periods.PnlUnpicked | apps/accounting/services.py:502-521 | entries of other periods do not change the profit and loss of a period |
| Periods.LockedPeriodIsFrozen | apps/accounting/services.py:97-100 | no call but its own unlock changes the lock, the profit and loss, or the agreement of the stored columns of a locked period |
| Periods.LockedPeriodStaysFrozen | apps/accounting/services.py:742-760 | the same over every run that never unlocks it |
| Periods.ClosedMonthIsFinal | apps/accounting/services.py:763-809 | after a close with lock the stored profit-and-loss columns equal the recomputed statement in every later state of such a run |
| Periods.LockFollowsLastDecision | apps/accounting/services.py:742-760 | over every run a period is locked if and only if the last call to lock or unlock it locked it, or there was none and it was locked before |
| Periods.UnlockedPeriodTakesPostings | apps/accounting/services.py:97-130 | after an unlock, whatever happens until the next lock of that period, a posting dated in it goes through if and only if its lines are balanced, there are any, and each can be stored |
| Periods.PostingMovesColumns | apps/accounting/services.py:524-540 | a posting raises the assets shown for a month by what it debits to asset accounts and lowers liabilities and equity by what it debits there, if it is dated by the statement date, and else not at all |
| Periods.SnapshotCoversOneDayMore | apps/accounting/services.py:781-784 | of all dates a month's statement covers exactly that month, the months before, and the first day of the next |
| Periods.PostingMovesAssetColumn | apps/accounting/services.py:781-786 | a posting leaves the asset column of a month alone if and only if it is dated after the first of the next month or nets to zero over the asset accounts |
| Periods.PostingMovesLiabilityColumn | apps/accounting/services.py:781-801 | the same if and only if for the liability column, over the liability accounts |
| Periods.PostingMovesEquityColumn | apps/accounting/services.py:524-540 | the same for the equity column, over the equity and all profit-and-loss accounts |
| Periods.FirstOfNextMonthLeaksIntoClosedMonth | apps/accounting/services.py:784-786 | a sale on the first of the next month goes through and changes the asset column of the closed month |
| Reversals.MirrorTotals | apps/accounting/services.py:141-145 | mirroring swaps the totals and negates the net of every group of accounts |
| Reversals.ReversalRefusedOnlyByLock | apps/accounting/services.py:139-151 | any stored entry can be reversed unless today's period is locked: the mirrored lines always satisfy the constraint |
| Reversals.ReversalUndoes | apps/accounting/services.py:139-151 | after a reversal every account has the balance it would have without the original and the reversal |
| Reversals.ReversalUndoesPartyIff | apps/accounting/services.py:142-145 | a party's balance is undone if and only if the original did not move it |
| Reversals.ReversingTwiceRestores | apps/accounting/services.py:139-151 | reversing the reversal posts the original accounts and amounts again, line by line |
| Cycles.OrderLifeIsOneEntry | apps/accounting/services.py:158-243 | payment, delivery and payout together amount to one entry on every account and for every party: cash in, commission earned, the rest and earlier dues paid out; the seller is owed nothing |
| Cycles.DeliveryOwes | apps/accounting/services.py:181-213 | a delivered order adds gross less commission to what is due to its seller and releases its row |
| Cycles.RefundedOrderIsOneEntry | apps/accounting/services.py:158-391 | payment and full refund together amount to cash in against the buyer's wallet or an open bank refund |
| Cycles.RefundedInFull | apps/accounting/services.py:384-391 | a full refund before delivery leaves the order's row clawed back |
| Cycles.CodCycleIsOneEntry | apps/accounting/services.py:303-338 | collection, remittance and reconciliation clear cash in transit and the courier liability on every query |
| Cycles.ShortfallIsOwedByCourier | apps/accounting/services.py:341-361 | after a short deposit the courier owes exactly the difference, and the deposit was positive and smaller than the amount |
| Cycles.WalletPaymentIsDirectPayment | apps/accounting/services.py:158-286 | topping up and spending at once equals paying directly: the same modelled rows, the same value of every query |
| Cycles.PnlAppend | apps/accounting/services.py:502-521 | how one more entry moves each line of the statement of its period |
| Cycles.DeliveryEarnsCommission | apps/accounting/services.py:181-213 | a delivery moves the statement of its month by its commission as revenue and by nothing else |
| Cycles.AmortisationIsExpensed | apps/accounting/services.py:666-675 | amortisation is an operating expense of its month, of what the asset amortised |
| Cycles.RecognitionIsRevenue | apps/accounting/services.py:634-645 | recognised deferred revenue is revenue of its month, of what the row recognised |
| Cycles.ReserveMovesProfit | apps/accounting/services.py:592-608 | raising the reserve costs the increase, releasing it earns the decrease |
| Cycles.RevaluationMovesProfit | apps/accounting/services.py:690-705 | a revaluation moves other income by exactly the gain or loss |
| EventLaws.SettlementClearsGateway | apps/accounting/services.py:158-256 | a card payment and its settlement clear the gateway: the bank has the payment less the fee, escrow holds the whole payment |
| EventLaws.FeeIsCost | apps/accounting/services.py:246-256 | the fee is positive, smaller than the payment, and a cost of revenue of its month |
| EventLaws.TransferMovesWallets | apps/accounting/services.py:289-298 | a transfer takes from the sender's wallet what the recipient's gets; for every other account and party nothing moves |
| EventLaws.TopUpFillsWallet | apps/accounting/services.py:259-267 | a top-up is owed to its user, against cash of the same amount |
| EventLaws.ChargebackIsCharged | apps/accounting/services.py:394-403 | a chargeback leaves the bank and is charged to the seller's payable if the order was released, to escrow if not |
| EventLaws.IvaMovesToState | apps/accounting/services.py:426-438 | the cent nearest to 14% of the commission, the larger of two nearest, moves from escrow to the tax owed, and nothing else moves |
| EventLaws.VoucherFundsEscrow | apps/accounting/services.py:408-423 | a voucher puts the whole price into escrow: the buyer's part through the gateway, the rest as marketing |
| EventLaws.VoucherIsExpensed | apps/accounting/services.py:408-423 | the subsidy is an operating expense of its month; both parts must be positive |
| CallOutcomes.BuyerPaidOutcome | apps/accounting/services.py:158-179 | a payment goes through if and only if its order has a row already, and then does nothing, or its amount is positive and can be posted, and then opens the row |
| CallOutcomes.WalletSpendOutcome | apps/accounting/services.py:270-286 | spending goes through if and only if the amount is positive and can be posted; only the first payment of an order opens a row |
| CallOutcomes.DeliveryOutcome | apps/accounting/services.py:182-215 | a delivery goes through if and only if the row is released already, or has a seller and an amount that splits and can be posted; then the row is released with its commission and net, and the seller accrues the net |
| CallOutcomes.CodReconciledOutcome | apps/accounting/services.py:323-338 | a COD reconciliation goes through if and only if its amount splits, can be posted, and a seller is named |
| CallOutcomes.RefundOutcome | apps/accounting/services.py:364-391 | a refund goes through if and only if its amount is positive and can be posted; the row adds it up and is clawed back in full if and only if the gross is reached |
| CallOutcomes.RefundsAddUp | apps/accounting/services.py:384-391 | over every run the row of an order shows exactly the refunds that went through |
| CallOutcomes.PayoutOutcome | apps/accounting/services.py:217-243 | a payout goes through if and only if nothing is due or it can be posted; then exactly the accrued rows of the seller are paid with its batch |
| CallOutcomes.ReserveOutcome | apps/accounting/services.py:592-608 | an adjustment of the reserve goes through if and only if there is nothing to adjust or it can be posted |
| CallOutcomes.RevaluationOutcome | apps/accounting/services.py:690-705 | a revaluation goes through if and only if there is no gain or loss or it can be posted |
| CallOutcomes.EventOutcome | apps/accounting/services.py:246-438 | each event goes through if and only if its period is open, its accounts are known and its amounts positive, a fee or deposit smaller than the whole; else nothing changes |
| CallOutcomes.EveryEntryTells | apps/accounting/services.py:89-152 | every entry carries the date its call asked for and tells by type, flags and names which kind of call posted it, what it reverses, and who posted and approved it |
| CallOutcomes.RequestOutcome | apps/accounting/views.py:110-124 | a manual entry can be requested if and only if its lines balance and debit something |
| CallOutcomes.DecisionOutcome | apps/accounting/views.py:130-167 | a decision goes through if and only if the request is pending, somebody else decides, and, to accept, its lines can be posted; it changes that request only |
| Sweeps.RecogniseIsRun | apps/accounting/services.py:625-646 | a recognition sweep is a run of row calls, of all rows when it does not raise, so every law of runs holds in its middle too |
| Sweeps.AmortiseIsRun | apps/accounting/services.py:658-676 | the same for the amortisation sweep |
| Sweeps.RunConcat | apps/accounting/services.py:625-646 | a run of two lists of calls is the one after the other |
| Sweeps.ReserveReachesExpectedLoss | apps/accounting/services.py:584-608 | an adjustment that goes through puts 2050 at the expected loss, and repeating it posts nothing |
| Deferred.TwoLinePosting | apps/accounting/services.py:88-130 | when a two-line posting of one amount goes through: period open, amount positive, both accounts known |
| Deferred.RowCall | apps/accounting/services.py:625-646 | when a row raises, and what it becomes otherwise |
| Deferred.SweepCall | apps/accounting/services.py:621-647 | a sweep raises exactly at the first row that cannot post; the rows before advance, the others stay |
| Deferred.StraightLine | apps/accounting/services.py:630-644 | after k months a row has recognised k·(total div n) for k < n and the total from k = n on |
| Deferred.ScheduleRunsIff | apps/accounting/services.py:630-633 | no month of the schedule is refused for its amount if and only if total >= months |
| Deferred.RowConserves | apps/accounting/services.py:634-645 | a row call debits 2100 by exactly what the row recognises |
| Deferred.SweepConserves | apps/accounting/services.py:621-647 | a sweep, complete or cut short, debits 2100 by exactly the recognised total of all rows |
| Amortisation.AssetCall | apps/accounting/services.py:658-676 | when an asset raises, and what it becomes otherwise |
| Amortisation.SweepCall | apps/accounting/services.py:654-677 | a sweep raises exactly at the first asset that cannot be amortised; the ones before advance, the others stay |
| Amortisation.StraightLine | apps/accounting/services.py:659-675 | after k months an asset has amortised min(k instalments, cost) and ends when the cost is reached |
| Amortisation.AmortisationTerminatesExactly | apps/accounting/services.py:654-677 | an asset with cost >= life ends, with exactly its cost amortised, after ceil(cost / instalment) sweeps and no earlier, and never exceeds its cost |
| Amortisation.LifetimeRange | apps/accounting/services.py:659-661 | that number lies between the useful life and twice the useful life minus one |
| Amortisation.FullyAmortisedIff | apps/accounting/services.py:659-665 | a finished asset has its whole cost amortised if and only if cost >= life or cost = 0 |
| Amortisation.TooSmallToAmortise | apps/accounting/services.py:659-665 | an asset of fewer cents than months is finished by the first sweep with nothing amortised |
| Amortisation.PostsDuringLifetime | apps/accounting/services.py:658-675 | an asset has something left to post exactly during its lifetime, if it costs at least a cent a month |
| Amortisation.AssetConserves | apps/accounting/services.py:666-675 | an asset call credits 1450 by exactly what the asset amortises |
| Amortisation.SweepConserves | apps/accounting/services.py:654-677 | a sweep, complete or cut short, moves 1450 by exactly the sum over all assets |
| Histories.HistoryIsRun | apps/accounting/services.py:621-677 | every history of calls and sweeps, in any order, is a run, so all laws of runs hold of it |
| Histories.HistoryKeepsValid | apps/accounting/services.py:458-479 | over every history, sweeps that stop half-way included, the journal stays sound and sealed and the trial balance balances |
| Histories.RowFollowsSchedule | apps/accounting/services.py:621-647 | after any history a deferred row is where its schedule stands after as many months as calls or sweeps reached it, whatever happened in between |
| Histories.DeferredRevenueIsExact | apps/accounting/services.py:621-647 | over any history a new row has recognised k·(total div n) for the k times it was reached, and its total from its last month on |
| Histories.NextMonthGoesThroughIff | apps/accounting/services.py:625-645 | after any history a new row takes its next month if and only if it is finished, or the month is open, its accounts exist and it defers at least a cent a month |
| Histories.LongEnoughRowsNeverStopASweep | apps/accounting/services.py:621-647 | rows of at least a cent a month never stop a sweep of an open month, whatever else happens |
| Histories.SweepsGoThroughIff | apps/accounting/services.py:621-647 | in a history that starts with new rows and sweeps open months, all sweeps go through if and only if each row defers at least a cent a month |
| Histories.AssetFollowsSchedule | apps/accounting/services.py:654-677 | the same law of schedules for assets |
| Histories.AmortisationIsExact | apps/accounting/services.py:654-677 | over any history a new asset has amortised min(k instalments, cost) for the k times it was reached, and is finished exactly from its lifetime on; nothing if it costs less than a cent a month |
| Histories.NextAmortisationGoesThroughIff | apps/accounting/services.py:658-676 | after any history a sweep passes a new asset if and only if the month is open or nothing is left to post |
| Histories.AmortiseSweepGoesThroughIff | apps/accounting/services.py:654-677 | after any history an amortisation sweep goes through if and only if its month is open or every asset is settled |
| Conservation.StepAvoids | apps/accounting/services.py:88-712 | for every call, guards that can be read off before it tell that it posts nothing to 1101, 1450 or 2100 |
| Conservation.DeferredRowsExplainTheirAccount | apps/accounting/services.py:621-647 | over every run without other postings to 2100, its debits move by exactly what the deferred rows recognise |
| Conservation.AssetsExplainTheirAccount | apps/accounting/services.py:654-677 | over every run without other postings to 1450, its balance moves by exactly what the assets amortise |
| Conservation.ShortfallConserves | apps/accounting/services.py:341-358 | a courier shortfall debits 1101 by exactly the receivable it records |
| Conservation.ReceivablesExplainTheirAccount | apps/accounting/services.py:341-358 | over every run without other postings to 1101, its balance moves by exactly the shortfalls recorded |
| ManualEntries.DecisionKeepsDuties | apps/accounting/views.py:130-167 | a decision leaves every posted request backed by its own entry and decided by somebody else |
| ManualEntries.DutiesStaySegregated | apps/accounting/views.py:104-167 | in every run a request is posted at most once, as requested, only by someone other than its requester, and decided requests never change |
| Deletion.PlaceholderStandsIn | apps/users/anchor.py:122-159 | after a deletion the placeholder stands for the user as poster, seller, debtor and requester, and nobody as approver or party of a line; nothing else is renamed |
| Deletion.JournalVerifiesIff | apps/users/anchor.py:120-155 | after a user was deleted the journal still verifies if and only if that user posted no entry or the digest collides on each one |
| Deletion.JournalBreaksAtFirst | apps/accounting/models.py:139-159 | otherwise the break is at the first entry of the user that does not collide |
| Deletion.LogVerifiesIff | apps/admin_actions/models.py:85-102 | the action log still verifies if and only if the deleted admin took no logged action or the digest collides on each one |
| Deletion.LogBreaksAtFirst | apps/admin_actions/models.py:85-102 | otherwise the break is at the first such row that does not collide |
| Deletion.JournalForgetsParty | apps/users/anchor.py:120-159 | every statement and balance survives a deletion; only the deleted user's balances as a party are gone |
| Deletion.DeletionMovesPayableGap | apps/users/anchor.py:146-150 | deleting a seller keeps both reconciliation differences as a whole, and moves what the open rows owed the seller to the placeholder, without its journal lines |
| Affiliates.AffiliateService.RecordConversion | apps/affiliates/service.py:134-167 | records one pending conversion per account and order, repeated calls change nothing |
| Affiliates.AffiliateService.ClawbackConversion | apps/affiliates/service.py:186-212 | reverses the order's pending and confirmed rows, lowers the counter of the confirmed ones, and reports how many rows changed |
| Affiliates.AffiliateService.ConfirmPendingConversions | apps/affiliates/service.py:217-242 | walks the oldest pending rows, confirms those whose hold has elapsed, raises the counters, and reports how many rows changed |
| Affiliates.AffiliateService.ProcessPayouts | apps/affiliates/service.py:245-276 | pays each of the first active accounts its confirmed total once that reaches the minimum, and reports how many payouts were added |
| Affiliates.Due | apps/affiliates/service.py:257-262 | collects exactly the confirmed conversions of an account and their total |
| Affiliates.MarkSettled | apps/affiliates/service.py:269-273 | marks those conversions paid with the payout number and no others |
| AffiliateLaws.RowStepKeepsConsistency | apps/affiliates/service.py:194-210 | a status change with the matching counter change keeps the counters, payouts and rows consistent |
| AffiliateLaws.SettleTotals | apps/affiliates/service.py:257-273 | settling an account moves the paid total and the new payout by exactly the due amounts and earns nothing |
| AffiliateLaws.PayAccountBacks | apps/affiliates/service.py:255-273 | after a payout every payout is backed by exactly the conversions with its number and reaches the minimum |
| AffiliateLaws.ClawbackKeeps | apps/affiliates/service.py:186-212 | a clawback keeps everything consistent and leaves paid conversions alone |
| AffiliateLaws.ConfirmKeeps | apps/affiliates/service.py:217-242 | a confirmation sweep keeps everything consistent, whatever its batch size |
| AffiliateLaws.PayKeeps | apps/affiliates/service.py:245-276 | a payout sweep keeps everything consistent, whatever its batch size |
| AffiliateLaws.RunsConserve | apps/affiliates/service.py:134-276 | in every run cached counters are true sums, payouts equal their conversions and the minimum is respected, total paid equals the sum over paid rows, holds were respected, paid and reversed rows are final |
| AffiliateLaws.OpeningConsistent | apps/affiliates/service.py:134-167 | a programme with zero counters starts consistent |
| AffiliateLaws.RecordIsExact | apps/affiliates/service.py:134-165 | a new order of an account adds exactly one pending row, of the cent nearest to total·rate with ties to even; a repeated one changes nothing |
| AffiliateLaws.ClawbackIsComplete | apps/affiliates/service.py:186-212 | a refund reverses all pending and confirmed rows of the order and touches no other |
| AffiliateLaws.ConfirmIsExact | apps/affiliates/service.py:217-242 | a sweep confirms exactly the pending rows its batch reaches whose hold has elapsed; rows on hold use up their place |
| AffiliateLaws.PayoutsAreExact | apps/affiliates/service.py:245-276 | a sweep pays exactly the confirmed rows of the active accounts its batch reaches whose total reaches the minimum, and leaves all others alone |
| AdminConsole.ConsoleService.AdminLevel | apps/admin_console/services.py:63-71 | an unknown or missing admin has level 0 |
| AdminConsole.ConsoleService.SubmitApproval | apps/admin_console/services.py:82-117 | appends a pending request with a four-hour expiry, and its trail row if that can be written |
| AdminConsole.ConsoleService.ApproveRequest | apps/admin_console/services.py:120-167 | the refusals in their order, and otherwise approval, trail row and executor with its failure kept apart; all undone if the trail row cannot be written |
| AdminConsole.ConsoleService.Execute | apps/admin_console/services.py:223-248 | the executors of kill switches and fee changes |
| AdminConsole.ConsoleService.RejectRequest | apps/admin_console/services.py:170-187 | anybody but the submitter may reject a pending request, at any time |
| AdminConsole.ConsoleService.ExpireStaleApprovals | apps/admin_console/services.py:190-194 | expires exactly the stale pending requests and counts them |
| AdminConsole.ConsoleService.ScheduleFeeChange | apps/admin_console/services.py:384-408 | a short-notice permanent change is refused; otherwise a schedule is created together with its request |
| AdminConsole.ConsoleService.ApplyDueFeeChanges | apps/admin_console/services.py:411-427 | activates eligible due schedules in table order and reports how many were eligible at the start |
| AdminConsole.ConsoleService.RemoveUser | apps/users/anchor.py:73-161 | refuses only the placeholder; moves submitted requests, decided requests and trail rows of the user to it, and drops the role |
| AdminConsole.ActivateFee | apps/admin_console/services.py:420-425 | supersedes what was active in the category, then activates the row |
| ConsoleLaws.DecisionKeeps | apps/admin_console/services.py:138-185 | a decision keeps all approval laws, with its executor called at most once |
| ConsoleLaws.ApproveKeeps | apps/admin_console/services.py:120-167 | every approval attempt keeps the approval laws and earlier verdicts |
| ConsoleLaws.RejectKeeps | apps/admin_console/services.py:170-187 | every rejection attempt keeps the approval laws and earlier verdicts |
| ConsoleLaws.UndecidedKeeps | apps/admin_console/services.py:129-132 | submitting requests and letting them expire keeps the approval laws and earlier verdicts |
| ConsoleLaws.DeleteKeeps | apps/users/anchor.py:120-159 | deleting a user keeps the approval laws: the user is replaced by the placeholder and nothing is decided |
| ConsoleLaws.RunsKeepApprovals | apps/admin_console/services.py:102-248 | in every run, deletions of users included, whatever went ahead was decided by another admin of level 5 or more within four hours with a row in the trail, executors ran at most once, verdicts are final, and each kill switch is as the last executed request set it |
| ConsoleLaws.ComplianceAlwaysFull | apps/admin_console/services.py:786-792 | in every run, deletions of users included, the compliance figure is 100 |
| ConsoleLaws.FourEyesShownIff | apps/users/anchor.py:146-150 | in every run the stored reviewer of a decided request differs from its stored submitter if and only if not both of them were deleted |
| ConsoleLaws.FourEyesCanBeLost | apps/users/anchor.py:146-159 | for any two admins: one submits, the other rejects, both are deleted, and the stored row shows the same user twice |
| ConsoleLaws.NothingDueNothingDone | apps/admin_console/services.py:411-427 | categories without an eligible due change are left alone |
| ConsoleLaws.NightlyRunActivatesLast | apps/admin_console/services.py:411-427 | a category with eligible due changes ends with exactly one active schedule: the last eligible one |
| ConsoleLaws.ApplyKeepsFees | apps/admin_console/services.py:411-427 | the nightly run keeps one active schedule per category at most, each properly approved and due |
| ConsoleLaws.RunsKeepFees | apps/admin_console/services.py:384-427 | the same in every run, with thirty days' notice for permanent changes that are no emergency |
| ConsoleOutcomes.ApprovalAnswer | apps/admin_console/services.py:120-140 | an approval is accepted if and only if the request exists, is pending and in time, the approver is not its submitter and has level 5 or more, and the trail is stored; each refusal has its own condition |
| ConsoleOutcomes.ApprovalEffect | apps/admin_console/services.py:138-167 | an accepted request is approved if nothing executes its kind, failed if and only if the executor raised, else executed; its kill switch reads what it asked for, its fee is scheduled, and no other request, switch or fee changes |
| ConsoleOutcomes.RefusedApprovalKeeps | apps/admin_console/services.py:124-136 | a refused approval changes nothing, except that a request found too late expires |
| ConsoleOutcomes.RejectionOutcome | apps/admin_console/services.py:170-187 | anybody but the submitter can reject an open request, at any time and level, and nothing else changes |
| ConsoleOutcomes.SubmissionOutcome | apps/admin_console/services.py:102-136 | a new request is open and can be approved for 14400 seconds, the last one included, by another admin of level 5 or more |
| ConsoleOutcomes.TrailOutcome | apps/admin_console/services.py:82-117 | the trail names who did what to which request, at the level held then |
| ConsoleOutcomes.ExpiryOutcome | apps/admin_console/services.py:190-194 | the sweep expires a request if and only if it is pending with expires < now, and changes nothing else |
| ConsoleOutcomes.DeletionAnswer | apps/users/anchor.py:122-161 | every user but the placeholder is deleted and loses the role, nobody else does |
| ConsoleOutcomes.FeeChangeOutcome | apps/admin_console/services.py:384-408 | a change is refused if and only if it is permanent, no emergency, and effective within thirty days; else its schedule and its request are stored |
| ConsoleOutcomes.NightlyRunIsExact | apps/admin_console/services.py:411-427 | the nightly run, row by row: what is due and approved becomes active or is superseded by a later row of its category, what was active is superseded if its category has such a row, all else stays |
| ConsoleOutcomes.NightlyRunCounts | apps/admin_console/services.py:411-427 | it reports how many rows take effect |
| Settings.PlatformSettings.SetPlatformSetting | apps/admin_console/services.py:434-459 | creates version 1 or the next version, with its history row |
| Settings.PlatformSettings.RestorePlatformSetting | apps/admin_console/services.py:462-469 | finds the version in the history and sets its value again, or changes nothing |
| Settings.SetKeepsHistory | apps/admin_console/services.py:434-459 | a change appends one version to its key and keeps the history of every key complete |
| Settings.FindIsLookup | apps/admin_console/services.py:463-466 | exactly the versions 1..v are found, each with the change that made it |
| Settings.RestoreIsExact | apps/admin_console/services.py:462-469 | restoring k succeeds if and only if 1 <= k <= v, yields the value of version k as version v+1, and only appends |
| Settings.RunsKeepHistory | apps/admin_console/services.py:434-469 | in every run versions 1..v appear once each, linked old to new value, the current value last |
| AdminLog.ActionLog.Save | apps/admin_actions/models.py:104-127 | a new row is sealed onto the tail; a row with a key is refused |
| AdminLog.LogIsAppendOnly | apps/admin_actions/models.py:104-133 | over any sequence of attempted saves and deletions no stored row changes or disappears, the log stays sealed and numbered, and exactly the new contents are added, in order |
| AdminLog.ActionLog.Verify | apps/core/audit_chain.py:42-81 | an untouched log verifies with all its rows |
| AdminLog.LogHeadCommits | apps/admin_actions/models.py:85-127 | two logs with the same last digest are equal, or the digest collides |
| RateLimiter.EdgeRateLimiter.Call | middleware/rate_limiter.py:231-283 | ban check, burst band, then sustained band, with every counter and set it changes |
| RateLimiter.EdgeRateLimiter.BumpRejects | middleware/rate_limiter.py:193-200 | counts the refusal in its ban window and bans at the threshold |
| RateLimiter.SlidingWindowCount | middleware/rate_limiter.py:146-178 | both back ends: prune, add and count, or one counter per bucket |
| RateLimiter.TicksVersusCount | middleware/rate_limiter.py:158-164 | counting distinct ticks equals counting arrivals if and only if no two arrivals of the window tie |
| RateLimits.SortedSetIsWindow | middleware/rate_limiter.py:160-164 | after pruning, the sorted set is exactly the set of recorded arrivals in (now-W, now] |
| RateLimits.HitKeepsBand | middleware/rate_limiter.py:146-178 | recording a refused request keeps the band's invariant |
| RateLimits.AcceptKeepsBand | middleware/rate_limiter.py:146-178 | accepting a request counted within the limit keeps the band's invariant |
| RateLimits.SortedBandBound | middleware/rate_limiter.py:146-167 | no window of length W, wherever it starts, holds more than limit accepted ticks |
| RateLimits.BucketBandBound | middleware/rate_limiter.py:168-178 | with buckets any window of length W holds at most twice the limit |
| RateLimits.ServeKeepsInvariant | middleware/rate_limiter.py:231-283 | every run of requests keeps both bands, the ban and the refusal counters true to the full log |
| RateLimits.TwoBandLimit | middleware/rate_limiter.py:231-283 | for arrivals at distinct ticks no window of either band's length holds more accepted requests than its limit |
| RateLimits.TwoBandLimitOnTicks | middleware/rate_limiter.py:231-283 | without distinct ticks the bound holds for the ticks |
| RateLimits.VerdictIsExact | middleware/rate_limiter.py:245-283 | with either back end a request is accepted if and only if every ban has expired and it fits both bands counted over the full logs |
| RateLimits.AcceptedExactlyWhenItFits | middleware/rate_limiter.py:231-283 | the same after any run of requests |
| RateLimits.RefusalNamesFirstReason | middleware/rate_limiter.py:231-283 | otherwise the answer names the first reason: an unexpired ban, else the burst band, else the sustained band, each if and only if |
| RateLimits.TiesAreNotLimited | middleware/rate_limiter.py:158-164 | any number of requests on one tick is accepted |
| RateLimits.TiedLimit | middleware/rate_limiter.py:158-164 | with at most m requests per tick a window holds at most m·min(limit, W) accepted requests |
| RateLimits.TiedLimitIsReached | middleware/rate_limiter.py:158-164 | that bound is reached in every window, by m requests on each of its first min(limit, W) ticks |
| RateLimits.LimitWithTiesIff | middleware/rate_limiter.py:158-164 | the limit holds in a window over every run with at most m requests per tick if and only if m·min(limit, W) <= limit |
| RateLimits.LimitNeedsDistinctTicks | middleware/rate_limiter.py:158-164 | for a limit no longer than the window that means: if and only if no two requests share a tick |
| RateLimits.BucketFallbackLimit | middleware/rate_limiter.py:168-178 | the fallback limiter accepts at most twice the limit in any window, ties or not |
| RateLimits.AlignedWindowLimit | middleware/rate_limiter.py:168-178 | in a window that is one of the buckets it accepts at most the limit |
| RateLimits.FittingRunIsAccepted | middleware/rate_limiter.py:168-178 | a run none of whose requests exceeds its bucket is accepted as a whole |
| RateLimits.TwiceTheLimitIsReached | middleware/rate_limiter.py:149-154 | twice the limit is reached in every window over a bucket boundary: a full bucket just before it and one just after it |
| RateLimits.FallbackLimitIff | middleware/rate_limiter.py:149-154 | the limit itself holds in a window over every run if and only if the window is aligned with the buckets |
| RateLimits.BansHold | middleware/rate_limiter.py:181-200 | once a refusal has reached the threshold, every later request of the run before the expiry is refused as banned, those on the same tick included |
| RateLimits.BansHaveCause | middleware/rate_limiter.py:193-200 | a request is refused as banned only before the expiry of an earlier refusal that reached the threshold in its ban window |
| Alerts.SavedSearch.constructor | apps/alerts/service.py:57-64 | a saved search starts from the first 200 matches |
| Alerts.SavedSearch.Run | apps/alerts/service.py:70-113 | inactive, nothing new, rate limited or notified, with the state each leaves |
| Alerts.FilterNew | apps/alerts/service.py:77-78 | the matches outside the baseline, in match order |
| Alerts.Trim | apps/alerts/service.py:108 | as many elements of the union as fit, without repeats |
| Alerts.SavedKnowsFirstMatches | apps/alerts/service.py:57-64 | a saved search is active, has notified nobody, and knows exactly the first 200 of its matches |
| Alerts.RunNotifiesIff | apps/alerts/service.py:70-113 | a run notifies if and only if the search is active, something new matches, and it never notified or the interval has passed since; the other three answers have their own conditions |
| Alerts.SpacedRunsAllNotify | apps/alerts/service.py:86-113 | runs spaced by the interval that each find something new all notify |
| Alerts.FirstFiftyAreAnnounced | apps/alerts/service.py:77-78 | announced are the first fifty new matches, in match order |
| Alerts.RemembersIffFits | apps/alerts/service.py:107-113 | a notification remembers everything known if and only if it fits the baseline |
| Alerts.BaselineStaysTold | apps/alerts/service.py:70-113 | while everything fits and no run finds more than fifty new matches, the baseline holds exactly what the user was told |
| Alerts.NextRunRepeatsNothingIff | apps/alerts/service.py:107-113 | after a notification no next run announces a product the user was told about, if and only if everything known fits the baseline |
| Alerts.SearchRepeatsItselfIff | apps/alerts/service.py:43-113 | the same at the end of the whole life of a search up to its first overflow |
| Alerts.StepNeverRepeats | apps/alerts/service.py:70-113 | one run keeps the deliveries pairwise disjoint while the baseline fits |
| Alerts.DeliveriesAreDisjoint | apps/alerts/service.py:43-113 | in every history that fits the baseline no product is announced twice, nor one of the creation baseline |
| Alerts.DeliveriesAreSpaced | apps/alerts/service.py:86-93 | in every history consecutive deliveries are at least the interval apart |
| Alerts.RateLimitedDefers | apps/alerts/service.py:86-93 | a rate-limited run absorbs nothing: what it held back is still new |
| Alerts.AllNewAnnouncedIff | apps/alerts/service.py:77-78 | of distinct matches every new one is announced if and only if there are at most fifty |
| Alerts.AbsorbedIsNeverAnnounced | apps/alerts/service.py:77-112 | what the baseline holds is in no delivery of any later history that fits |
| Alerts.BeyondFiftyIsNeverAnnounced | apps/alerts/service.py:78-112 | a new match that a notification leaves out is in no delivery at all, earlier or later, as long as the baseline fits |
| Feed.ScoreRange | apps/ai_engine/hyper_engine.py:391-650 | every score lies in [1.94, 9.675] unless excluded, so the -100 filter drops exactly the excluded products and every other score is positive |
| Feed.MarketRange | apps/ai_engine/hyper_engine.py:577-608 | the market layer lies in [3, 10], at 3 exactly when no signal fires |
| Feed.SocialRange | apps/ai_engine/hyper_engine.py:551-575 | the social layer lies in [3, 10], at 3 exactly without trust, reactions and promotion |
| Feed.BehaviouralRange | apps/ai_engine/hyper_engine.py:483-516 | the behavioural layer lies in [3, 10], at 3 exactly when nothing recent matches |
| Feed.DnaAndSerendipityRange | apps/ai_engine/hyper_engine.py:422-639 | the two layers that share the budget: their least values with their conditions, and their joint weighted maximum 0.74 |
| Feed.LeastScoreIff | apps/ai_engine/hyper_engine.py:391-650 | a product scores 1.94 if and only if it is not excluded and nothing speaks for it, layer by layer |
| Feed.LeastScoreIsReached | apps/ai_engine/hyper_engine.py:391-650 | an old, unnoticed, bounced product far beyond the budget, outside the taste of the user, scores 1.94 |
| Feed.GreatestScoreIsReached | apps/ai_engine/hyper_engine.py:391-650 | a new, wanted, well-matching product of a trusted seller scores 9.675 |
| FeedScores.ScoreDifference | apps/ai_engine/hyper_engine.py:63-72 | the score is linear in its eight layers, with the weights 0.30, 0.25, 0.15, 0.10, 0.10, 0.05, 0.04 and 0.01 |
| FeedScores.OnlyPersonal | apps/ai_engine/hyper_engine.py:391-650 | tastes, profile, luck and past move four of the layers and no other |
| FeedScores.OnlyMoment | apps/ai_engine/hyper_engine.py:391-650 | browsing, hour and day move two layers and no other |
| FeedScores.OnlyProduct | apps/ai_engine/hyper_engine.py:391-650 | trust, popularity, stock, age and price drop move two layers and no other |
| FeedScores.TastePoints | apps/ai_engine/hyper_engine.py:448-469 | a point of category taste is worth 0.018, of brand taste 0.009, of seller taste 0.006, following the store 0.9, all as far as the layer has room below ten (and so for every signal below) |
| FeedScores.DistasteCostsNothing | apps/ai_engine/hyper_engine.py:448-481 | without any taste for a product no further distaste lowers its score |
| FeedScores.NewCategoryPoints | apps/ai_engine/hyper_engine.py:610-632 | a category without any taste gains 0.12 with the lot and loses 0.08 without |
| FeedScores.StylePoints | apps/ai_engine/hyper_engine.py:471-479 | each style in common is worth 0.15, up to four |
| FeedScores.VisitPoints | apps/ai_engine/hyper_engine.py:499-502 | the first three visits are worth 0.375 each, the fourth 0.125, no further one |
| FeedScores.PriceGapPoints | apps/ai_engine/hyper_engine.py:504-511 | a price within 30% of the average seen is worth 0.5, within 60% 0.25 |
| FeedScores.IntentPoints | apps/ai_engine/hyper_engine.py:513-516 | high intent is worth 0.5 |
| FeedScores.SessionPoints | apps/ai_engine/hyper_engine.py:493-497 | a long session without events is worth 0.25; events that match nothing count as none |
| FeedScores.ContextPoints | apps/ai_engine/hyper_engine.py:518-549 | the right hour is worth 0.45, the right day 0.3, payday 0.225 above a price of 50000 |
| FeedScores.ViewPoints | apps/ai_engine/hyper_engine.py:566 | each view is worth 0.0002, up to 1500 |
| FeedScores.WishPoints | apps/ai_engine/hyper_engine.py:567-573 | each wish is worth 0.01, up to twenty, being featured 0.1, being boosted 0.05 |
| FeedScores.TrustPoints | apps/ai_engine/hyper_engine.py:555-563 | a point of trust is worth 0.004, the trusted badge 0.1, the elite one 0.2 |
| FeedScores.CartPoints | apps/ai_engine/hyper_engine.py:568-606 | each cart is worth 0.015, up to twenty, besides the share of views that led to a cart: nothing up to a tenth, then itself, 0.2 from a fifth on |
| FeedScores.StockPoints | apps/ai_engine/hyper_engine.py:580-588 | a flash sale is worth 0.4, the last two pieces 0.3, the last five 0.2 |
| FeedScores.AgePoints | apps/ai_engine/hyper_engine.py:596-602 | the first day is worth 0.2, the first three 0.15, the first week 0.1 |
| FeedScores.DropPoints | apps/ai_engine/hyper_engine.py:590-594 | a price drop moves the score by a tenth of its bonus |
| FeedScores.DropWorth | apps/ai_engine/hyper_engine.py:590-594 | the bonus is ten times the part of the comparison price that is saved, up to three tenths of it |
| FeedScores.AffinityPoints | apps/ai_engine/hyper_engine.py:435-444 | a price near the purchasing power is worth 0.1, the same province 0.15 |
| FeedScores.BudgetPoints | apps/ai_engine/hyper_engine.py:422-433 | against no profile, a price within the budget is worth 0.15, one above it costs 0.1, or 0.04 up to one and a half times the budget |
| FeedScores.PastPoints | apps/ai_engine/hyper_engine.py:618-650 | a view is worth 0.01, a bounce costs 0.05; the lot decides over 0.2 |
| FeedScores.ExcludedIff | apps/ai_engine/hyper_engine.py:391-404 | a product scores below zero, and then -999, if and only if it was returned, or bought and is not on the wish list |
| Feed.BuildFeed | apps/ai_engine/hyper_engine.py:663-691 | the loops give the specified filter, ranking and interleaving |
| Feed.Interleave | apps/ai_engine/hyper_engine.py:683-689 | the moving discovery index puts every item where its index formula says |
| FeedLaws.RankingIsStableSort | apps/ai_engine/hyper_engine.py:677 | the ranking is descending and keeps, score by score, the candidate order |
| FeedLaws.FeedSize | apps/ai_engine/hyper_engine.py:676-691 | a feed has as many top items as fit the limit and one discovery behind each full run of seven of them, as long as there are any |
| FeedLaws.FeedLayout | apps/ai_engine/hyper_engine.py:679-691 | at most limit items; the k-th discovery is at index 8k+7 and nowhere else; all other places hold top items |
| FeedLaws.FeedOrder | apps/ai_engine/hyper_engine.py:677-691 | top items appear in descending order, and so do discoveries |
| FeedLaws.FeedHasNoRepeats | apps/ai_engine/hyper_engine.py:663-691 | no product appears twice when the candidates are distinct |
| FeedLaws.InterleavingSplitsBack | apps/ai_engine/hyper_engine.py:683-689 | every beginning of the interleaving splits back into a beginning of the top items and one of the discoveries |
| FeedLaws.FeedSkipsNothing | apps/ai_engine/hyper_engine.py:663-691 | read back, a feed holds the best top items and the best discoveries without a gap |
| FeedLaws.ScoredHasKept | apps/ai_engine/hyper_engine.py:671-675 | a product is ranked if and only if it is a candidate that is not hard-excluded |
| FeedLaws.NothingFallsThrough | apps/ai_engine/hyper_engine.py:680-681 | every ranked product is a top item or a discovery and none is both: the lower bound of the discoveries drops nothing |
| FeedLaws.FeedIsEmptyIff | apps/ai_engine/hyper_engine.py:680-691 | a feed is empty if and only if the limit is zero or no candidate reaches 4.0 |

## Left out

Accounting
- Real concurrency: every call is one step. Locks, unique keys and races on unlocked reads are not modelled.
- The account table is a parameter: seeding it, and edits of accounts while the books run, are not modelled. Account codes are numbers.
- Integers are unbounded: overflow of the 64-bit cents columns is not modelled.
- Texts: descriptions are abridged and not truncated, and the library's own entries carry no line texts. Keys and creation times of lines, time stamps of rows, payment methods, release triggers and the event log are not modelled.
- Integrity.RunKeepsValid: speaks of runs of service calls; deleting a user is no such call, and what it does to the chain is stated by `Deletion.JournalVerifiesIff`.
- Rows are read in primary-key order where the code leaves the order open (lines of an entry, deferred rows, assets).
- Journal.PostedEntryIsSound: an empty and an unbalanced posting are told apart by two errors, where the code raises one exception type with two messages.
- LedgerService.Ledger.constructor: takes the account table as given; seeding it is not modelled.
- LedgerService.Ledger.SnapshotFinancials: leaves out take rate and gross margin (floats), the detail document (a copy) and the trial-balance flag, which is always true by `Integrity.StatementsAlwaysBalance`.
- LedgerService.Ledger.MonthEndClose: returns the reconciliations and does not store them.
- LedgerService.Ledger.ReconcileSubLedgers: returns the reconciliations and does not store them by date.
- Reconciliation.RecordRecon: returns the record and does not store it by date and ledger.
- Cycles.WalletPaymentIsDirectPayment: leaves out the payment method, in which the two escrow rows differ.
- LedgerService.Ledger.AdjustReserve: takes the expected loss already rounded; its probabilities and the dispute reserve table are not modelled.
- LedgerService.Ledger.FxRevaluation: takes the gain already rounded; exchange rates and the revaluation table are not modelled.
- LedgerService.Ledger.RequestManual: takes lines already read as integers; malformed request bodies and the stored period, which nothing reads, are not modelled.
- Ageing of receivables: a classification by age without state.
- The digest is any function of sequence number, content and previous digest, so theorems end in "or the digest collides"; `AuditChain.DeletionDetected` also takes digests to differ from the empty genesis string, as the `sha256:` prefix ensures.

Affiliates
- Click recording and attribution: the account of an order is a parameter. The attribution look-back uses the longest programme window although its comment says the smallest.
- Conversions are created in time order, so the oldest pending rows come first in the table. Programme terms do not change during a run.
- Affiliates.AffiliateService.RecordConversion: takes the attributed account, order totals in whole cents and rates in millionths, and does not return the row.
- Outbox events and the posting to the ledger, which does nothing.

Admin console
- AdminLog.LogIsAppendOnly: speaks of saves and deletions through the model; the bulk update that moves a deleted admin is stated by `Deletion.LogVerifiesIff`.
- Errors while single relations of a deleted user are moved, which are skipped, and relations of other applications.
- AdminConsole.ConsoleService.Execute: executors other than kill switches and fee changes only succeed or fail, since they write to other applications.
- AdminConsole.ConsoleService.AdminLevel: superuser and staff flags are folded into the level of an admin.
- AdminConsole.ConsoleService.ScheduleFeeChange: is one step; the short moment in which a schedule exists without its request is not modelled.
- AdminConsole.ConsoleService.RejectRequest: is called with a signed-in admin, as the only caller does; a call with no admin at all is not modelled.
- Exports, legal holds, banners, incidents, experiments and payout holds: single-row updates.

Rate limiter
- RateLimiter.EdgeRateLimiter.Call: takes one client address with both bands given; reading rates and settings, skipped paths, the off switch and requests without an address are not modelled.
- RateLimits.LimitWithTiesIff: speaks of a band whose other band is off or has no smaller limit.
- RateLimits.FallbackLimitIff: speaks of a band whose other band is off or has a larger limit, as the burst band of the default configuration; a smaller limit of the other band can keep a misaligned window within the limit as well.
- One clock in microsecond ticks instead of a monotonic and a wall clock. Cache expiry is left out: sorted sets and counters expire only after their window, so it removes nothing a later request reads. A deployment keeps one kind of cache.

Alerts and feed
- The search query, name checks, the batch runner over many searches, and the outbox. The order in which a set lists its elements is left open.
- Loading of the user context. Scores are reals: floating-point rounding is not modelled. Whether a price is close to the purchasing power (logarithms), whether hour and day match the category (keywords) and the hash that makes an item lucky are taken as given. The trust application is not part of this model; its scores are taken as non-negative.
- The context cache of the feed.
