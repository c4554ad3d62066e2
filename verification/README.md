# Ledger verification

A Dafny model of a double-entry finance service and proofs of what its ledger keeps. `dafny verify dfyconfig.toml`
checks the whole project.

Money is in whole cents (`int`); `BaseAmounts` also takes the four places the nominal columns allow. Exchange rates are
eight-place fixed-point numbers and ownership fractions ten-thousandths, as the columns store them; the lease schedule
works on real numbers of cents with the source's roundings written out. Rounding is half away from zero. One SQL
transaction is one step; work outside a transaction is a step of its own. Clocks, brokers, crashes and other callers are
parameters of the steps, so a statement "over every run" covers all of them. Operations that change tables are classes
whose methods are proved equal to a specification step, and the properties are lemmas about sequences of those steps.

| module | what it models |
|---|---|
| `Ledger`, `Money`, `Sums`, `Algebra` | accounts, lines, balances; rounding; finite sums; real arithmetic |
| `Booking` | the booking primitive under concurrent callers |
| `BaseAmounts` | conversion of an entry to base currency |
| `Journal`, `JournalCalls` | drafts, posting, reversal chains, superseding a document |
| `PostingWindow` | dating of event entries and closed periods |
| `Subledger`, `SubledgerCash`, `SubledgerOnce` | open items, outbox, relay, consumers, payments and notes against the control accounts; repeated requests |
| `Grir`, `GrirFigures` | goods received / invoices received; the documents' own figures |
| `Settlement` | part payments of a foreign document |
| `LeaseSchedule`, `LeaseRuns`, `LeaseCalls`, `LeaseFlows`, `LeaseRounding` | lease amortisation (IFRS 16), period runs, storage in whole cents |
| `AssetRegister`, `AssetCalls`, `ImpairmentHistory`, `RevaluationStandard` | depreciation, impairment and its reversal (IAS 36), revaluation (IAS 16), disposal |
| `Approvals`, `ApprovalCalls` | tiered sign-off; what each call does |
| `AuditChain` | the audit hash chain |
| `YearEnd` | the year-end close |
| `Entities`, `Consolidation`, `GroupBalanceSheet` | entity scope, group eliminations (IFRS 10) and the balance sheet made of them |
| `CashFlow` | the direct cash-flow statement |
| `Invoicing` | issuing an invoice over several transactions |

## Where the code does not do what it says

For each of these there is a lemma that says exactly when the promise holds, and where the failure takes a sequence of
calls also a concrete run, from empty books, that shows it.

- Base debits do not always equal base credits when nominal ones do: lines are rounded one by one, so only whole-number
  rates keep every entry in cents balanced (`BaseAmounts.BalanceKeptIffWholeRate`). The trigger compares base amounts,
  so at other rates the service cannot book some balanced entries (`BaseAmounts.AllBookableIffWholeRate`,
  `BaseAmounts.HalfRateRefused`), and with four-place amounts not even at par (`BaseAmounts.FourPlacesRefusedAtPar`).
  Settlements set their base amounts themselves and are always booked (`BaseAmounts.SettlementBooked`).
- Reversal lines carry no base amounts, so reversing a reversal restores an entry nominally but not in base-currency
  reports (`Journal.BaseReportAgreesIff`, `Journal.ReversedReversalIsLost`).
- The event id and the source id of a booking can disagree when the source id was set to something else; a replay is
  then answered without an entry (`Booking.ReplayFindsEntryIff`, `Booking.OutOfStepReplayReturnsNothing`).
- Period check and event booking are not one transaction: a posting that read a month as open can land in it after it
  closed (`PostingWindow.FrozenIffNothingPending`, `PostingWindow.BookedIntoClosedMonth`). Nor are the draft count and
  the close (`PostingWindow.ClosedWithDraftsIff`, `PostingWindow.DraftInClosedMonth`).
- A credit note cannot empty an unpaid item, because the table requires positive amounts (`Subledger.FullCreditAcceptedIff`,
  `Subledger.FullCreditOfUnpaidItem`).
- Warehouse receipts outside a goods-receipt note put 2150 off its accruals (`Grir.ReconciledIffNoStrayReceipt`,
  `Grir.StrayReceiptIsOff`).
- A lease payment below the cent can leave a permanent difference in 2500 (`LeaseRounding.GapIsRoundedDrift`,
  `LeaseRounding.LiabilityTiesOutIff`, `LeaseRuns.SubCentPaymentLeavesGap`).
- An asset capitalised from 1500, 1510 or 3100 puts that account off the register for good (`AssetRegister.TiesOutIff`,
  `AssetRegister.DriftIsMisfunded`, `AssetRegister.CapitalisedOutOfDepreciation`).
- Revaluation increases that recover earlier losses go to surplus, where paragraph 39 of IAS 16 has them in profit
  (`RevaluationStandard.AgreesIff`, `RevaluationStandard.AccountAgreesIff`, `RevaluationStandard.WrittenDownThenUp`).
- An impairment reversal is not limited to earlier impairments (`ImpairmentHistory.AlwaysCoveredIff`,
  `ImpairmentHistory.NeverImpairedYetReversed`).
- An approval whose action failed, or ran and was not marked, is called retryable and is not (`Approvals.RetryableIff`,
  `Approvals.RunButNotMarked`); a padded form of a signer's name can sign again (`Approvals.SignsTwiceIff`,
  `Approvals.OnePersonApproves`).
- A repeated year-end close is an error instead of the existing entry; a first close that fails among its period locks
  never locks the rest; later postings are never closed (`YearEnd.RepeatChangesNothing`,
  `YearEnd.LockedIffFirstAttemptFinished`, `YearEnd.HalfLockedYear`, `YearEnd.SecondCloseBooksNothing`).
- The consolidated balance sheet balances only if trading within the group has no net income
  (`GroupBalanceSheet.BalanceSheetBalancesIff`, `GroupBalanceSheet.GoodsStillHeld`).
- An invoice cut off between being marked issued and its schedule never gets the schedule (`Invoicing.ConvergesIff`,
  `Invoicing.CutOffIsFinal`, `Invoicing.MarkedWithoutSchedule`).
- A separator in an audit actor or type makes two different rows hash alike (`AuditChain.AmbiguousIffSeparator`).

## Model

The first 51 rows are the main results, in the order of the modules; the others support them, module by module.

| member | source | states |
|---|---|---|
| Booking.Serializable | internal/repository/booking.go:278-349 | For any set of calls and any interleaving of pre-check, insert, mark, side effect, commit, look-up and crash, the committed tables are those of booking the committed calls one at a time and indivisibly, in commit order. |
| Booking.AtMostOnce | internal/repository/booking.go:265-349 | At most one entry and one side-effect run per event id, whatever the interleaving; every entry's side effect ran. |
| Booking.ProcessedIffEntry | internal/repository/booking.go:88-97 | When the two ids of every call agree, an event is in processed_events if and only if its entry exists. |
| Booking.SameEntryReturned | internal/repository/booking.go:270-275 | Every caller of an event that returns without error returns the one entry stored for it. |
| Booking.FailedIff | internal/repository/booking.go:292-345 | In every interleaving a caller with an event ends in an error exactly when its process died before returning or its side effect failed: losing a race or arriving late is not an error. |
| Booking.AloneIsBook | internal/repository/booking.go:278-349 | With no other transaction open, one caller's seven statements are the indivisible booking, with the answer spelled out for a redelivery, a taken source id, a failed side effect and a new entry. |
| Booking.ReplayFindsEntryIff | internal/repository/booking.go:292-300 | Corrects the comment that the two ids cannot disagree: a processed event finds its entry exactly when the call's source id is unset or equal to its event id. |
| BaseAmounts.BalanceKeptIffWholeRate | internal/repository/booking.go:55-60 | The claim that base debits equal base credits whenever nominal ones do holds for every entry exactly when the rate is a whole number of cents for one unit of the amounts: a whole number for amounts in cents, a multiple of one hundred for four-place amounts. |
| BaseAmounts.AllBookableIffWholeRate | internal/db/migrations/077_restore_base_balance_invariant.sql:22-53 | So every nominally balanced entry can be booked exactly at those rates; at any other, the trigger refuses some balanced entry at commit. |
| Journal.ReversedIffNamedOnce | internal/repository/booking.go:182-263 | In every reachable journal an entry is reversed if and only if exactly one entry names it in reverses_entry_id. |
| Journal.ChainNominal | internal/repository/booking.go:206-250 | A chain contributes its first entry's amounts to every account when its length is odd and nothing when it is even (nominal amounts, posted and reversed alike). |
| Journal.BaseReportAgreesIff | internal/repository/booking.go:244-250 | The base report of a base-currency entry's chain agrees with its nominal effect exactly when the entry is posted, the chain even, or the account untouched. |
| Journal.Journal.SupersedeEntriesBySource | internal/ledger/service.go:383-417 | Returned without error, every entry the document had at the start is gone or reversed, with arbitrary concurrent commits between its transactions; the two lists returned tell the truth, and with nobody else committing they hold every listed draft and every listed posted entry, all other entries being untouched. |
| PostingWindow.FrozenIffNothingPending | internal/ledger/service.go:434-475 | Period check and booking are separate steps, so a closed period is frozen over all runs if and only if no resolved and unbooked window lies in it. |
| Subledger.DifferenceIsValueInFlight | internal/repository/control_recon.go:26-111 | Over every interleaving of creation with an outbox row, relay, duplicate and reordered delivery, payments and notes, the printed GL-subledger difference is exactly minus the amounts enqueued and not yet booked, for AR and AP. |
| Subledger.ReconciledIffAllBooked | internal/repository/control_recon.go:26-111 | A side reconciles if and only if every event it enqueued has been booked. |
| SubledgerCash.CashIsWhatWasPaid | internal/repository/payments.go:181-250 | Over every run, cash is what the items record as received from customers less what they record as paid to vendors. |
| SubledgerOnce.PaymentTakesEffectIff | internal/repository/payments.go:150-207 | After any history a payment takes effect exactly when none with its side, item and reference has taken effect before, the item is there, and the amount is positive and no more than what is open. |
| SubledgerOnce.PaymentOnce | internal/repository/payments.go:151-178 | In every run, a payment sent again after it took effect changes nothing, however much later and with whatever amount. |
| SubledgerOnce.NoteTakesEffectIff | internal/repository/adjustments.go:98-201 | After any history a note takes effect exactly when none of its side, kind and reference has before, the item is there and not settled, the period is open, and the item keeps a positive amount no less than what was paid. |
| Grir.OrderIndependent | internal/ledger/grir.go:66-220 | Final balances, processed events and accrual rows depend only on the set of distinct receipts, invoices and movements, not on order or repetition. |
| Grir.ReconciledIffNoStrayReceipt | internal/ledger/inventory.go:108-165 | 2150 equals accrued less cleared if and only if every warehouse receipt carried goods-receipt provenance. |
| Grir.PoCostIsValueReceived | internal/ledger/grir.go:127-220 | Per purchase order, stock plus expense debited equals the value received, whatever splits arrive and in whatever order. |
| GrirFigures.BooksAreTheDocuments | internal/ledger/grir.go:66-220 | After any history, in any order and with repetition, every account and every accrual row is the sum over the distinct documents of their own figures, tabulated account by account. |
| Settlement.SettlementBalances | internal/ledger/payments.go:37-93 | Every settlement entry balances exactly in base for any two rates and either direction, and realises cash leg less clearing leg (negated for AP). |
| Settlement.FullyClosed | internal/ledger/payments.go:37-108 | When n payments close an item, what they clear is within n half-cents of amount times document rate, and within one half more of the booked base amount. |
| LeaseSchedule.FinalPaymentDrift | internal/repository/leases.go:85-132 | The final payment differs from the contract payment by at most (1+r)^n (1/2 cent + P n(n+1)/4 10^-12) plus half a cent per compounded month. |
| LeaseSchedule.ScheduleAtAnnualRate | internal/repository/leases.go:85-132 | In terms of the annual rate: each month's interest is a twelfth of it on the opening liability to half a cent and the rate's rounding, months are consecutive, payments but the last are the contract's, depreciation but the last is an equal share to half a cent, and the final payment keeps the bound at a twelfth of the annual rate. |
| LeaseSchedule.ScheduleCloses | internal/repository/leases.go:105-130 | Openings chain to closings, payments split into interest and principal, principals repay exactly the liability, it closes at zero, depreciation adds up to the asset. |
| LeaseRounding.LiabilityTiesOutIff | internal/repository/leases.go:137-320 | After every run 2500 is off the unbooked principal by exactly the differences of the leases recognised, and ties out if and only if they add up to nothing. |
| LeaseRounding.GapIsRoundedDrift | internal/repository/leases.go:137-200 | For every payment, rate and term: the difference a lease leaves is, rounded, the sub-cent part of its payment for each ordinary month plus a cent for each month a half-cent payment falls short of its interest; it is zero exactly when that is under half a cent (the sign of the final principal deciding a tie). |
| LeaseCalls.RunCounts | internal/repository/leases.go:225-320 | After any history a run takes effect once a period, when it is open, some line up to it is open, and the due columns add up with none negative; it books exactly those lines, column by column, in one entry of one-sided lines and completes exactly the leases it leaves with no open line. |
| AssetRegister.TiesOutIff | internal/repository/fixed_assets.go:54-450 | Under every sequence of the six operations, each of 1500, 1510 and 3100 equals its column of the register exactly if no asset was capitalised from that very account. |
| AssetRegister.StraightLineClosedForm | internal/repository/fixed_assets.go:187-309 | Straight-line runs over m distinct periods leave min(m times monthly, cost less salvage), in any order and with repeats. |
| AssetCalls.DepreciationCounts | internal/repository/fixed_assets.go:187-309 | After any history a run charges each asset that is active, in service, not charged for the period and above its salvage value by a twelfth of the reducing rate on its carrying amount, or an equal share of its life, to half a cent and no further than the salvage value; 5300 and 1510 move by the growth of the accumulated amounts. |
| ImpairmentHistory.AlwaysCoveredIff | internal/repository/fixed_assets_ias16.go:93-150 | Over every run, no asset ever has more impairment reversed than was booked exactly when every booked reversal was within the impairments outstanding before it. |
| RevaluationStandard.AccountAgreesIff | internal/repository/fixed_assets_ias16.go:156-239 | Over every run 3100 holds at least the standard's surplus, and exactly that when no asset recovered an earlier decrease. |
| Approvals.ApprovalSafety | internal/repository/approvals.go:173-306 | In every run the signed tiers are the first of the required ones, each signed by someone other than the requester; approved, executed or run means all signed; the action commits at most once, and exactly once if executed. |
| ApprovalCalls.SignatureCounts | internal/repository/approvals.go:173-247 | After any history a signature counts exactly while the approval is pending, from neither the requester nor an earlier signer, with the permission of the lowest needed tier not signed; it signs that tier and completes the approval exactly when no other needed tier is left. |
| Approvals.SignsTwiceIff | internal/repository/approvals.go:173-247 | Over every run, whatever the names, two signers are one person exactly when some signature was taken from an earlier signer under a form of the name that differs beyond case. |
| Approvals.RetryableIff | internal/ledger/approvals.go:53-122 | An approved approval can still come to be executed exactly while the caller that completed it is under way; the comments call it retryable after that. |
| AuditChain.Verify | internal/chainaudit/audit.go:127-160 | Accepts exactly the sound chains; otherwise names the first unsound row and which check it fails. |
| AuditChain.SameHeadSameChain | internal/chainaudit/audit.go:124-160 | With an injective digest that is never GENESIS or contains a separator, and separator-free time, actor and type, two accepted chains ending in one hash are identical row for row. |
| AuditChain.AmbiguousIffSeparator | internal/hashchain/fnv.go:8-13 | Whatever the digest, a row hashes the text of some different row without separators in time, actor and type exactly when it has a separator in actor or type itself. |
| YearEnd.FirstClose | internal/ledger/yearend.go:27-111 | A year's first close books one balanced entry dated in December, after which every account that is active and of kind revenue or expense stands at zero for the year and 3000 has moved by exactly the sum of what those accounts held; every other account, and every other year, is unchanged. |
| YearEnd.LockedIffFirstAttemptFinished | internal/ledger/yearend.go:103-110 | So the twelve months end up closed exactly when the first attempt got through all its locks. |
| Consolidation.ConsolidatedGap | internal/repository/consolidation.go:51-217 | For any scope, window and subsidiaries the eliminations leave assets + expenses = liabilities + equity + revenue exactly as far off as the remaining entries are out of balance. |
| GroupBalanceSheet.BalanceSheetBalancesIff | internal/handlers/reports.go:100-142 | The printed consolidated balance sheet leaves the earning eliminations out; with balanced books it balances exactly when the intra-group entries up to its date have no net income. |
| Entities.EntityBook.EntityScope | internal/repository/entity.go:115-143 | The recursive query ends and lists root and each descendant exactly once; an unknown root is its own scope. |
| CashFlow.FlowsExplainCash | internal/repository/cashflow.go:17-64 | The three figures miss the change in cash by exactly what the window's cash-touching entries are out of balance by. |
| Invoicing.ConvergesIff | internal/ledger/invoicing.go:82-115 | Retrying ends in the fully issued invoice exactly when it has no deferral and some attempt marked it, or no attempt was cut off between the mark and the schedule before one ran through. |
| Booking.FailedWithoutEvent | internal/repository/booking.go:317-326 | A caller without an event has one error more: its source id is taken. |
| Booking.OutOfStepReplayReturnsNothing | internal/repository/booking.go:278-300 | Concrete run: with another source id set, the second caller is answered without error and without an entry. |
| Booking.CommitIsOneBooking | internal/repository/booking.go:317-349 | Each commit changes the tables by exactly one indivisible booking. |
| Booking.CommitKeepsTables | internal/repository/booking.go:317-337 | A commit keeps ids unique, sources unique and processed_events backed by entries. |
| Booking.ReachableValid | internal/repository/booking.go:278-349 | The protocol invariant holds in every reachable state. |
| Booking.Repository.BookPostedEntry | internal/repository/booking.go:278-349 | Run alone, the call is the indivisible booking. It ends in an error exactly when it is no redelivery and its side effect failed, or it has no event and its source id is taken; an in-step redelivery is answered with the entry stored before and changes nothing; otherwise entry, processed event and side effect are added and the new entry returned. |
| BaseAmounts.BaseNearlyBalances | internal/repository/repository.go:70-80 | For every rate and entry the base sides differ by at most half a cent a line. |
| BaseAmounts.PairKeepsBalance | internal/repository/repository.go:70-80 | One debit against one credit stays balanced in base at every rate. |
| BaseAmounts.Additive | internal/repository/repository.go:70-80 | A rate that keeps three-line entries balanced converts sums to sums. |
| BaseAmounts.HalfRateRefused | internal/db/migrations/077_restore_base_balance_invariant.sql:22-53 | Concrete entry: two cents against one and one, at a rate of one half, is refused. |
| BaseAmounts.FourPlacesRefusedAtPar | internal/db/migrations/077_restore_base_balance_invariant.sql:22-53 | Concrete entry in base currency: one cent against two half cents is refused. |
| BaseAmounts.SettlementBooked | internal/ledger/payments.go:37-93 | A settlement, which sets its base amounts itself, is stored as specified and booked at any two rates, though its nominal amounts balance only without an exchange difference. |
| BaseAmounts.InsertLines | internal/repository/booking.go:73-86 | The insert loop stores, line by line, the base amount set or else the converted one. |
| Journal.Chain | internal/repository/booking.go:182-263 | From any entry the reversals form one finite chain in which every entry but the last is reversed. |
| Journal.ChainReported | internal/repository/booking.go:244-250 | Reversal lines are inserted without base amounts, so a base-currency report shows an entry, in whatever currency, until its first reversal and never again. |
| Journal.ReversedReversalIsLost | internal/repository/booking.go:182-263 | Concrete run: a sale posted, reversed, and the reversal reversed stands nominally and is missing from the base report. |
| Journal.ApplyAllKeepsValid | internal/repository/booking.go:150-263 | Creation, posting, draft deletion and reversal keep the journal invariant over every run. |
| Journal.SettledCancels | internal/repository/booking.go:182-263 | An entry reversed by a mirror nets to zero with it on every account, and so does its whole chain unless the mirror was itself reversed. |
| Journal.ApplyIsLater | internal/repository/booking.go:150-263 | No operation edits lines, revives a deleted entry or moves a status backwards. |
| Journal.LaterTransitive | internal/repository/booking.go:150-263 | The same over any number of operations by anyone. |
| Journal.Journal.Insert | internal/repository/booking.go:61-86 | New entries get an id never used before; the base amounts of a posted one must balance, nominal ones need not. |
| Journal.Journal.MarkEntryPosted | internal/repository/repository.go:544-594 | Posts a draft in an open period whose base amounts balance, and nothing else, with the source's refusals and the trigger's. |
| Journal.Journal.DeleteDraftEntry | internal/repository/booking.go:150-175 | Deletes drafts only; posted entries are refused. |
| Journal.Journal.ReverseEntry | internal/repository/booking.go:182-263 | The mirroring loop builds the exact mirror, posts it naming the original, and marks the original reversed. |
| Journal.Journal.ListEntriesBySource | internal/repository/booking.go:123-146 | Lists an entry exactly when its source and document are the ones asked for and it is not reversed, newest first, with its status. |
| Journal.Journal.SupersedeEntry | internal/ledger/service.go:394-415 | One listed entry ends deleted or reversed even if other callers commit before and between the two attempts. |
| JournalCalls.CreationDoes | internal/repository/booking.go:61-86 | After any history a new entry gets a number never used and what it was given; one posted at once must balance in base. |
| JournalCalls.PostingDoes | internal/repository/repository.go:544-594 | After any history an entry is posted exactly when it is there, a draft, in an open period and balanced in base; each refusal spelled out. |
| JournalCalls.DeletionDoes | internal/repository/booking.go:150-175 | An entry is deleted exactly when it is there and a draft. |
| JournalCalls.ReversalDoes | internal/repository/booking.go:182-263 | An entry is reversed exactly when it is there and posted; line by line, the new entry exchanges debit and credit, has no base amounts and names it. |
| PostingWindow.WindowRules | internal/ledger/eventdate.go:56-124 | An event with no time, or one more than 86400 seconds ahead, counts as happening on arrival. It is refused exactly when its own and the current period are both closed; otherwise it is filed on its own date if that period is open and on arrival if not, in an open period and at most a day ahead. |
| PostingWindow.Freeze | internal/ledger/eventdate.go:92-124 | Over every run that does not reopen it, a closed period keeps exactly its posted entries, if no window had been resolved into it before it closed. |
| PostingWindow.BookedAtOnce | internal/ledger/eventdate.go:80-88 | Check and booking taken as one step can never post into any closed period. |
| PostingWindow.FiscalLedger.IsPeriodClosed | internal/repository/periods.go:23-36 | A period without a row is open. |
| PostingWindow.BookedIntoClosedMonth | internal/ledger/service.go:434-475 | Concrete run from an empty ledger: resolve, count drafts, close, book; the entry is posted into the closed month. |
| PostingWindow.ClosedWithDraftsIff | internal/repository/periods.go:45-72 | Drafts are counted before the close, in a statement of their own: a close that goes through leaves drafts in its month exactly when one was dated there since and has not been posted. |
| PostingWindow.DraftInClosedMonth | internal/repository/periods.go:45-72 | Concrete run from an empty ledger that does. |
| PostingWindow.PostedStays | internal/ledger/eventdate.go:92-124 | Over every run entries keep their place and date, and a posted one stays posted. |
| PostingWindow.PostingDoes | internal/ledger/service.go:309-344 | A draft is posted exactly when its month is open, and keeps its date. |
| PostingWindow.BookingDoes | internal/ledger/service.go:459-474 | A resolved event is booked on its accounting date, unless it is a replay, and its window is gone. |
| PostingWindow.CountingDoes | internal/repository/periods.go:46-56 | A count goes through exactly when no draft is dated in the month. |
| PostingWindow.ClosingDoes | internal/repository/periods.go:57-72 | A month is closed by a caller whose count went through and reopened by anyone. |
| PostingWindow.PostingAnswers | internal/ledger/service.go:309-344 | Which refusal a draft posting gets. |
| PostingWindow.FiscalLedger.CountPeriodDrafts | internal/repository/periods.go:46-56 | The count refuses exactly when a draft is dated in the period. |
| PostingWindow.FiscalLedger.UpsertClosed | internal/repository/periods.go:57-63 | The close itself, for a caller that has counted. |
| PostingWindow.FiscalLedger.SetPeriodStatus | internal/repository/periods.go:45-72 | Closing is the count and, if it found none, the close; reopening asks nothing. |
| PostingWindow.FiscalLedger.ResolvePostingWindow | internal/ledger/eventdate.go:92-124 | Asks for the current period only when needed and decides as the rules say. |
| PostingWindow.FiscalLedger.BookPostedEntry | internal/ledger/service.go:459-474 | Books on the resolved date; a redelivered event adds nothing. |
| PostingWindow.FiscalLedger.CreateJournalEntry | internal/ledger/service.go:263-308 | Drafts may be dated in any period. |
| PostingWindow.FiscalLedger.PostJournalEntry | internal/ledger/service.go:309-344 | Posts a draft exactly when its own period is open. |
| Subledger.ItemsStayValid | internal/repository/payments.go:181-206 | No item is ever overpaid, reduced below what was paid, or shown open when settled. |
| Subledger.StepConserves | internal/repository/adjustments.go:98-132 | Every single transaction keeps the conservation law. |
| Subledger.FlightLands | internal/consumer/consumer.go:140-204 | Booking one event takes exactly its amount out of flight. |
| Subledger.PostingEffect | internal/consumer/consumer.go:140-204 | A sale or an invoice moves its control account by its gross amount and balances. |
| Subledger.NoteEffect | internal/ledger/adjustments.go:52-128 | Each of the four note directions moves its control account by the delta it applies to the item. |
| Subledger.FullCreditOfUnpaidItem | internal/db/migrations/002_ledger.sql:58-77 | Concrete run: an item is created and a credit note over all of it refused. |
| SubledgerCash.SaleSplit | internal/consumer/consumer.go:155-167 | Account by account: a sale is revenue except for output VAT that is positive and below it. |
| SubledgerCash.NoteContra | internal/ledger/adjustments.go:52-128 | Account by account: customer notes correct revenue, vendor notes vendor adjustments, by the item's delta. |
| Subledger.FullCreditAcceptedIff | internal/db/migrations/002_ledger.sql:58-77 | A credit note for the whole open balance is accepted exactly when part of the item was paid; on an unpaid item the table's positive-amount check refuses it. |
| Subledger.OpenItemLedger.CreateOpenItem | internal/repository/repository.go:696-758 | Item and outbox row appear together, once per document. |
| Subledger.OpenItemLedger.ConsumeDelivery | internal/consumer/consumer.go:140-204 | Books a delivery once, refuses it in a closed period, and ignores replays. |
| Subledger.OpenItemLedger.ApplyPaymentWithJournal | internal/repository/payments.go:150-274 | Locked balance check, entry and item update in one transaction, with every refusal. |
| Subledger.OpenItemLedger.BookAdjustment | internal/repository/adjustments.go:98-201 | Note entry and floored item change in one transaction, with every refusal. |
| Subledger.OpenItemLedger.MarkOutboxPublished | internal/repository/outbox.go:128-132 | Marks a sent row. |
| Subledger.OpenItemLedger.MarkOutboxFailed | internal/repository/outbox.go:134-139 | Counts a failed attempt. |
| Subledger.OpenItemLedger.Relay | internal/worker/outbox.go:83-115 | Sending one row, with failure or death between send and mark, is a sequence of protocol steps. |
| Subledger.OpenItemLedger.FetchUnpublishedOutbox | internal/repository/outbox.go:96-125 | The oldest unsent rows under the attempt limit, as many as the batch allows. |
| Subledger.OpenItemLedger.Drain | internal/worker/outbox.go:83-115 | So is a whole pass over a batch of one hundred; without failures it leaves just the rows beyond the batch to send. |
| SubledgerOnce.PaidIsBooked | internal/repository/payments.go:190-250 | An item is paid exactly what the payments that took effect on it add up to. |
| SubledgerOnce.NoteOnce | internal/repository/adjustments.go:98-132 | In every run, a note sent again after it took effect changes nothing. |
| SubledgerOnce.CreationTakesEffectIff | internal/repository/repository.go:696-758 | An item appears, unpaid and with its outbox row, exactly when its amount is positive and its document new. |
| SubledgerOnce.DeliveryTakesEffectIff | internal/consumer/consumer.go:140-204 | After any history a delivery is booked exactly when it was published, the period is open, and no delivery of the same event has been booked. |
| SubledgerOnce.PublicationTakesEffectIff | internal/repository/outbox.go:96-125 | A row is sent exactly when it is unsent and has failed fewer than 6000 times. |
| SubledgerOnce.MarksDo | internal/repository/outbox.go:128-139 | Marking flags a row whose event was sent, a failure adds one attempt, and nothing else moves. |
| Grir.ControlDifference | internal/repository/grni.go:31-57 | The credit balance of 2150 is always the open accruals plus the warehouse receipts that came outside a goods-receipt note. |
| Grir.StrayReceiptIsOff | internal/ledger/inventory.go:108-165 | Concrete run: one warehouse receipt of its own puts 2150 off by its cost. |
| Grir.GrnProvenanceAddsNothing | internal/ledger/inventory.go:108-125 | A warehouse receipt with goods-receipt provenance changes nothing. |
| Grir.GrnLinesSound | internal/ledger/grir.go:22-40 | A receipt balances, credits GR/IR its whole value and splits the debit between stock and expense for any claimed split. |
| Grir.InvoiceLinesSound | internal/ledger/grir.go:127-220 | For any VAT figure, split and tax rate an invoice balances, owes the vendor the gross, and with an order clears GR/IR by exactly the net. |
| Grir.InvoiceLinesOneSided | internal/ledger/grir.go:127-220 | Every line it writes passes the one-side constraint. |
| Grir.GrirLedger.AddAccrual | internal/repository/grni.go:31-43 | The upsert raises accrued value and quantity of one order. |
| Grir.GrirLedger.ClearAccrual | internal/repository/grni.go:47-57 | The upsert raises cleared value and quantity, also before any receipt. |
| Grir.GrirLedger.BookGrnAccrual | internal/ledger/grir.go:66-98 | Booking a receipt is the specified handler step. |
| Grir.GrirLedger.BookApInvoice | internal/ledger/grir.go:127-220 | Booking an invoice is the specified handler step. |
| Grir.GrirLedger.BookInventoryMovement | internal/ledger/inventory.go:72-104 | Booking a movement is the specified handler step. |
| GrirFigures.InvoiceFigures | internal/ledger/grir.go:127-200 | Account by account: the gross is owed; VAT between nothing and the gross is claimed on 1300 and any other figure ignored; the rest clears 2150 with an order and is stock and expense without; self-assessed VAT is the rate on the net to half a cent, on both 1300 and 2100. |
| GrirFigures.GrnFigures | internal/ledger/grir.go:22-40 | Account by account: the value is owed on 2150, the claimed part brought between nothing and the whole is stock, the rest expense. |
| GrirFigures.MovementFigures | internal/ledger/inventory.go:108-165 | Account by account for receipts, issues, returns, production in and out and signed adjustments. |
| GrirFigures.BookedIff | internal/ledger/inventory.go:72-104 | A document is booked exactly when it has something to book, and then with balanced one-sided lines. |
| GrirFigures.MatchedOrderClears | internal/ledger/grir.go:100-126 | An order received at a value and invoiced at that net clears 2150 and its accrual in either order and with any repetition, leaving the VAT claimed and the gross owed. |
| Settlement.SettlementFigures | internal/ledger/payments.go:37-93 | Account by account for a receipt and a disbursement: money at the rate quoted on the day, or the document's when none is, to half a cent; the item cleared at the document's rate to half a cent; the difference to 7200 or 7210. |
| Settlement.PartPayments | internal/ledger/payments.go:37-93 | After any part payments, cash, control account and realised exchange result are the sums of the legs. |
| Settlement.ClearedNear | internal/ledger/payments.go:37-45 | The same bound for any part of the item. |
| LeaseSchedule.BuildLeaseSchedule | internal/repository/leases.go:85-132 | For every payment, annual rate and term the two loops give the rounded present value and the specified rows; the present value is the exact annuity at a twelfth of the annual rate to half a cent and the stated roundings, and the rows are those of LeaseSchedule.ScheduleAtAnnualRate. |
| LeaseSchedule.Amortise | internal/repository/leases.go:105-130 | The second loop alone, for any starting liability. |
| LeaseSchedule.PresentValueNear | internal/repository/leases.go:86-102 | The recognised liability is the exact annuity at a twelfth of the annual rate to half a cent, the discount factors' rounding and the rate's. |
| LeaseSchedule.MonthlyRateIs | internal/repository/leases.go:86 | Twelve times the monthly rate is the annual rate to 6 in the sixteenth place. |
| LeaseSchedule.LastDepreciation | internal/repository/leases.go:104-124 | The last month's depreciation is within (n-1) half-cents of an equal share. |
| LeaseSchedule.OpeningDrift | internal/repository/leases.go:85-132 | The liability an n-th ordinary payment would leave is within that bound of zero. |
| LeaseSchedule.InitialDrift | internal/repository/leases.go:85-102 | The recognised liability is that close to the exact present value. |
| LeaseSchedule.FactorError | internal/repository/leases.go:90-101 | Twelve-place discount factors stray by at most half a unit a month. |
| LeaseSchedule.ExactIsAnnuity | internal/repository/leases.go:112-120 | Without rounding, n payments repay the exact present value exactly. |
| LeaseSchedule.DriftBoundClosed | internal/repository/leases.go:112-120 | The month-by-month bound has the stated closed form. |
| LeaseRuns.TieOut | internal/repository/leases.go:137-320 | Over every sequence of creations and runs, 2500 is the unbooked principal plus the storage difference, 1610 is the booked depreciation, 1600 the liabilities recognised, and every entry balances. |
| LeaseRuns.WholeCentsTieOut | internal/repository/leases.go:137-320 | With payments in whole cents the storage difference is zero, so 2500 is exactly the unbooked principal, and stored lines add up. |
| LeaseRuns.SubCentPaymentLeavesGap | internal/repository/leases.go:137-200 | Concrete lease: two payments of 10.005 leave a permanent cent. |
| LeaseRounding.GapOverSteps | internal/repository/leases.go:137-320 | Recognition adds that difference, runs never change it. |
| LeaseFlows.ExpensesAreBookedLines | internal/repository/leases.go:225-320 | Over every sequence of creations and runs, lease interest, right-of-use depreciation expense and cash paid are the columns of the booked lines. |
| LeaseRuns.BookedOnce | internal/repository/leases.go:225-320 | A booked line keeps its entry for ever. |
| LeaseRuns.RunCatchesUp | internal/repository/leases.go:225-320 | A run that books leaves no line due and marks completed exactly the leases with nothing unbooked. |
| LeaseRuns.LeaseBook.RecogniseLease | internal/repository/leases.go:137-220 | The recognition transaction is the specified step. |
| LeaseRuns.LeaseBook.CollectDue | internal/repository/leases.go:229-262 | The scan collects exactly the due unbooked lines and their totals. |
| LeaseRuns.LeaseBook.RunLeasePeriod | internal/repository/leases.go:225-320 | The run transaction is the specified step. |
| LeaseRuns.LeaseBook.CompleteFinished | internal/repository/leases.go:306-313 | Marks completed exactly the leases with no unbooked line. |
| LeaseCalls.RecognitionCounts | internal/repository/leases.go:137-220 | After any history a lease is recognised exactly when the period is open, payment, term and present value are positive, the rate is not negative and the reference new; every stored line is its schedule row to half a cent, open, and the liability stands on 1600 and 2500. |
| AssetRegister.DriftIsMisfunded | internal/repository/fixed_assets.go:54-121 | Otherwise it is off by exactly the cost of what was capitalised from it. |
| AssetRegister.CapitalisedOutOfDepreciation | internal/handlers/fixed_assets.go:78-100 | Concrete run: an asset capitalised out of 1510 puts it off by the whole cost. |
| AssetRegister.RegisterTiesOut | internal/repository/fixed_assets.go:54-450 | For the active cost and accumulated depreciation, spelled out; and 0 <= accumulated <= cost for every active asset. |
| AssetRegister.SignsMatter | internal/repository/fixed_assets_ias16.go:38-239 | The repository checks no sign: an impairment or revaluation keeps 0 <= accumulated <= cost exactly when the amount it is given is not negative. |
| AssetRegister.CarryingAmountReached | internal/repository/fixed_assets_ias16.go:38-239 | Net book value is the recoverable amount after an impairment and the new carrying amount after a revaluation. |
| AssetRegister.SurplusNeverNegative | internal/repository/fixed_assets_ias16.go:156-239 | An asset's balance on 3100 is its net movement floored at zero plus the increases made while decreases were unrecovered, hence never negative. |
| AssetRegister.SurplusTiesOut | internal/repository/fixed_assets_ias16.go:156-239 | 3100 is the sum of the assets' surpluses exactly if no asset was capitalised from it. |
| RevaluationStandard.AgreesIff | internal/repository/fixed_assets_ias16.go:187-215 | The surplus booked for an asset is the one paragraphs 39 and 40 of IAS 16 ask for exactly when no increase came while its movements so far were negative. |
| RevaluationStandard.PostedAgainstStandard | internal/repository/fixed_assets_ias16.go:187-215 | The surplus booked is the standard's plus what was recovered. |
| RevaluationStandard.StandardIsNet | internal/repository/fixed_assets_ias16.go:187-215 | Under the standard an asset is in surplus or in loss by its net movement, never both. |
| RevaluationStandard.StrandedZeroIff | internal/repository/fixed_assets_ias16.go:187-215 | Nothing was recovered exactly when every increase came at a non-negative balance of movements. |
| RevaluationStandard.WrittenDownThenUp | internal/repository/fixed_assets_ias16.go:156-239 | Concrete run: down by a hundred and up by sixty books sixty in surplus, where the standard has none. |
| ImpairmentHistory.ReversalCoveredIff | internal/repository/fixed_assets_ias16.go:115-141 | One booked reversal leaves no more reversed than impaired exactly when the lesser of amount and accumulated depreciation is within the impairments outstanding. |
| ImpairmentHistory.StepCoveredIff | internal/repository/fixed_assets_ias16.go:38-150 | No other operation disturbs it. |
| ImpairmentHistory.NeverImpairedYetReversed | internal/repository/fixed_assets_ias16.go:93-150 | Concrete run: an asset depreciated for a month and never impaired has the charge reversed as an impairment. |
| AssetRegister.ReversalTakesDepreciation | internal/repository/fixed_assets_ias16.go:93-119 | The same on any asset that has only just begun to be depreciated. |
| AssetRegister.DisposalNet | internal/repository/fixed_assets.go:357-392 | Account by account: proceeds in, cost and depreciation out, the difference to gain or loss. |
| AssetRegister.RevaluationNet | internal/repository/fixed_assets_ias16.go:187-215 | Account by account: an increase goes to surplus, a decrease takes the asset's surplus first and the rest to loss. |
| AssetRegister.DisposalEffect | internal/repository/fixed_assets.go:321-450 | A disposal takes exactly the asset's cost and accumulated depreciation off the accounts and balances exactly when proceeds are not negative. |
| AssetRegister.RevaluationEffect | internal/repository/fixed_assets_ias16.go:156-239 | A revaluation entry balances and moves cost and surplus by what the asset records. |
| AssetRegister.FixedAssetRegister.LockAsset | internal/repository/fixed_assets_ias16.go:242-266 | Finds the asset with the reference, or none. |
| AssetRegister.FixedAssetRegister.CreateFixedAsset | internal/repository/fixed_assets.go:54-121 | The capitalisation transaction is the specified step. |
| AssetRegister.FixedAssetRegister.RunDepreciation | internal/repository/fixed_assets.go:187-309 | The loop over assets charges each as specified and books their total. |
| AssetRegister.FixedAssetRegister.BookImpairment | internal/repository/fixed_assets_ias16.go:38-91 | The impairment transaction is the specified step. |
| AssetRegister.FixedAssetRegister.ReverseImpairment | internal/repository/fixed_assets_ias16.go:96-150 | The reversal, capped by accumulated depreciation, is the specified step. |
| AssetRegister.FixedAssetRegister.BookRevaluation | internal/repository/fixed_assets_ias16.go:156-239 | The revaluation transaction is the specified step. |
| AssetRegister.FixedAssetRegister.DisposalEntry | internal/repository/fixed_assets.go:357-392 | The disposal lines are the specified ones. |
| AssetRegister.FixedAssetRegister.BookDisposal | internal/repository/fixed_assets.go:321-450 | The disposal transaction is the specified step, replays included. |
| AssetCalls.ImpairmentCounts | internal/repository/fixed_assets_ias16.go:38-91 | After any history an impairment counts exactly once a reference and date, on an active asset carried above the recoverable amount; it brings it down to that, by an entry between 5310 and 1510. |
| AssetCalls.ReversalCounts | internal/repository/fixed_assets_ias16.go:96-150 | A reversal counts exactly once a reference and date, on an active asset, for a positive amount and while something is accumulated, of which it takes back no more than there is. |
| AssetCalls.RevaluationCounts | internal/repository/fixed_assets_ias16.go:156-239 | A revaluation counts exactly once a reference and date, on an active asset carried at another amount; a decrease is taken from the surplus its earlier movements add up to, as far as that goes, and is a loss beyond. |
| AssetCalls.DisposalCounts | internal/repository/fixed_assets.go:321-450 | A disposal counts exactly once an event, on an active asset and for proceeds that are not negative; account by account. |
| AssetCalls.CapitalisationCounts | internal/repository/fixed_assets.go:54-121 | An asset is capitalised exactly when its reference is new and its life positive, active and undepreciated, with its cost moved to 1500. |
| AssetCalls.UnknownReference | internal/repository/fixed_assets_ias16.go:242-266 | The other operations do nothing for a reference the register does not hold. |
| Approvals.NobodySignsTwice | internal/repository/approvals.go:325-334 | With non-blank names, signers are pairwise distinct up to case. |
| Approvals.OnePersonOneSignature | internal/repository/approvals.go:325-378 | With names also unpadded, no two signers are the same person as the requester check understands it. |
| Approvals.SecondSignatureTakenIff | internal/repository/approvals.go:325-334 | For someone who signed before, among any number of signers, another signature is taken exactly when none of the earlier forms of the name agrees up to case. |
| Approvals.OnePersonApproves | internal/repository/approvals.go:173-247 | Concrete run: one person signs both tiers, the second time with a blank after the name, and the approval is complete. |
| Approvals.PaddedNameExample | internal/repository/approvals.go:371-378 | A name and the same name with a blank after it. |
| Approvals.SignatureTakenIff | internal/repository/approvals.go:173-247 | A signature otherwise in order is taken exactly when the name is blank or no earlier signature has it up to case. |
| Approvals.SignatureProgress | internal/repository/approvals.go:173-247 | Each accepted signature signs the next required tier with that tier's permission, leaves one tier fewer, and completes exactly at the last. |
| Approvals.RunButNotMarked | internal/ledger/approvals.go:88-118 | Concrete run: the action has committed, the mark failed, and the approval stays approved whatever is called. |
| Approvals.FinalForGood | internal/ledger/approvals.go:53-122 | A decided approval with no caller under way never changes again. |
| Approvals.FinalStates | internal/ledger/approvals.go:53-122 | The same for one call. |
| Approvals.RequiredSubset | internal/repository/approvals.go:103-111 | A tier is required exactly when it is in the table and the amount exceeds its band. |
| Approvals.RequiredAscending | internal/repository/approvals.go:103-111 | The required tiers stay in table order. |
| Approvals.NextIsAfterPrefix | internal/repository/approvals.go:345-369 | With a prefix signed the next tier is the one right after it. |
| Approvals.ApprovalDesk.RequiredTiers | internal/repository/approvals.go:103-111 | The selecting loop computes the required tiers. |
| Approvals.ApprovalDesk.ApprovedTiers | internal/repository/approvals.go:308-323 | Lists the signed tiers in order. |
| Approvals.ApprovalDesk.RecordApprovalTier | internal/repository/approvals.go:173-247 | The sign-off transaction is the specified step, with every refusal. |
| Approvals.ApprovalDesk.RejectApproval | internal/repository/approvals.go:251-306 | The rejection transaction is the specified step, with every refusal. |
| Approvals.ApprovalDesk.CommitAction | internal/ledger/approvals.go:80-117 | The action, in its own transaction, is the specified step. |
| Approvals.ApprovalDesk.MarkApprovalExecuted | internal/repository/approvals.go:163-166 | The mark, in another, is the specified step. |
| Approvals.ApprovalDesk.ExecuteApproval | internal/ledger/approvals.go:80-122 | The two in sequence, either of which can fail. |
| ApprovalCalls.RejectionTakenIff | internal/repository/approvals.go:251-306 | A rejection is taken exactly while the approval is pending, from the requester, from anyone when no tier is needed, or from a holder of the permission of some needed tier. |
| ApprovalCalls.RejectionTier | internal/repository/approvals.go:272-290 | It is recorded under the lowest needed tier, not numbered zero, whose permission its author holds. |
| ApprovalCalls.SameActorIs | internal/repository/approvals.go:371-378 | Two names in any padding are one actor exactly when what is between the padding agrees up to case and is neither nothing nor unknown. |
| ApprovalCalls.NothingToSign | internal/repository/approvals.go:173-247 | When no needed tier is left a signature approves at once, under the same conditions on the name. |
| ApprovalCalls.ExecutionCounts | internal/ledger/approvals.go:80-122 | What the action and the mark change, each succeeding or failing. |
| AuditChain.AppendsAccepted | internal/chainaudit/audit.go:57-94 | Every chain built by appends is accepted, for any digest and any text. |
| AuditChain.AppendedRows | internal/chainaudit/audit.go:57-94 | Row by row: each append keeps its own id, time, actor, type and message, links to the hash before it, and hashes the five texts joined by bars in that order. |
| AuditChain.EncodeInjective | internal/hashchain/fnv.go:8-13 | The separator-joined encoding determines all five fields, although the message may contain separators. |
| AuditChain.Store.AppendEvent | internal/chainaudit/audit.go:57-94 | An append links to the head and keeps the chain accepted. |
| YearEnd.RepeatChangesNothing | internal/ledger/yearend.go:27-68 | Repeating it with no new postings changes nothing and answers that there is nothing to close, where the comment promises the existing entry. |
| YearEnd.OnlyTheFirstAttemptCounts | internal/ledger/yearend.go:86-111 | Any number of attempts, each possibly failing among its locks, is worth the first one. |
| YearEnd.HalfLockedYear | internal/ledger/yearend.go:103-110 | Concrete run: a close that fails after five locks and one more attempt leave June to December open. |
| YearEnd.SecondCloseBooksNothing | internal/ledger/yearend.go:86-101 | A year reopened and posted to again is never closed again: the call books nothing and later balances stay. |
| YearEnd.ClosingEntryNet | internal/ledger/yearend.go:49-76 | The closing entry balances, clears what it takes up and moves net income to 3000, for signed balances. |
| YearEnd.ZeroingLineNet | internal/ledger/yearend.go:113-126 | The zeroing line of any non-zero balance has one positive side and cancels it. |
| YearEnd.ClosingEntryOneSided | internal/ledger/yearend.go:49-76 | Every closing line passes the one-side constraint. |
| YearEnd.CloseAnswers | internal/ledger/yearend.go:35-111 | Refused without change exactly while the year has a draft, or when no active revenue or expense account has a balance; otherwise the months locked, whether an entry is added, and success exactly when all twelve locks went through. |
| YearEnd.YearBook.CountDraftEntriesInYear | internal/repository/yearend.go:63-73 | Is positive exactly when the year has a draft. |
| YearEnd.YearBook.RevenueExpenseBalance | internal/repository/yearend.go:18-61 | The grouped sum over the year's posted entries, in the account's natural sign. |
| YearEnd.YearBook.BuildClosingLines | internal/ledger/yearend.go:49-76 | The loop builds the closing entry, or no lines exactly when every balance is zero. |
| YearEnd.YearBook.CloseFiscalYear | internal/ledger/yearend.go:35-111 | The whole operation is the specified step, also when it fails among its locks. |
| Consolidation.ConsolidatedBalances | internal/repository/consolidation.go:51-217 | With entries balanced in base the consolidated statement satisfies the equation. |
| GroupBalanceSheet.BalanceSheetGap | internal/repository/reports.go:148-195 | It is off by what the remaining entries are out of balance by, less that net income. |
| GroupBalanceSheet.GoodsStillHeld | internal/handlers/reports.go:126-134 | Concrete books: one sale within the group of goods the buyer still holds unbalances it by the sale. |
| Consolidation.EliminationRemovesIntraGroup | internal/repository/consolidation.go:47-97 | Adding the transactional rows leaves on every account exactly the statement of the entries that are not intra-group. |
| Consolidation.StatementGapIsExcess | internal/repository/consolidation.go:47-97 | The statement of any choice of entries misses the equation by their imbalance. |
| Consolidation.InvestmentRowsBalance | internal/repository/consolidation.go:174-189 | One subsidiary's rows balance, the minority keeps its share to half a cent, goodwill is the cost beyond the parent's share, and a wholly owned one has no minority. |
| Consolidation.InvestmentEliminated | internal/repository/consolidation.go:153-217 | The structural rows take out of 1800 the whole of what parents booked on it against subsidiaries in scope. |
| Consolidation.StructuralEliminations | internal/repository/consolidation.go:193-217 | The loop returns the specified rows; its running totals are what the rows say of minority and goodwill; the rows balance. |
| Consolidation.ListEliminations | internal/repository/consolidation.go:78-97 | The row loop returns the specified non-zero rows. |
| Consolidation.OneMoreEntry | internal/repository/consolidation.go:47-97 | An entry counts in the aggregate exactly when it is posted, its entity is in scope and its date in the window; it survives the eliminations unless its counterparty is in scope too and it leaves 1800, 1900 and 3200 alone. |
| Consolidation.InvestmentFigures | internal/repository/consolidation.go:133-172 | A subsidiary's equity grows by what its own posted entries up to the date credit to equity accounts, the investment by what its parent's entries against it debit to 1800. |
| Consolidation.OneMoreSubsidiary | internal/repository/consolidation.go:174-217 | Each subsidiary takes its investment out of 1800 and its equity out of the group's, and leaves the minority its share to half a cent and goodwill the cost beyond the parent's share. |
| Entities.AlwaysAForest | internal/repository/entity.go:64-97 | Over all creations and ownership changes the seeded root stays, parents precede children, so parent links never form a cycle, fractions stay in range and codes distinct. |
| Entities.OneDepth | internal/repository/entity.go:119-126 | An entity is at one depth below a root only. |
| Entities.OperationsDo | internal/repository/entity.go:64-97 | After any history an entity is created exactly as asked, parent included, when its fraction is in range, its code new and its parent there; an ownership change alters the one fraction; otherwise nothing changes. |
| Entities.EntityBook.CreateEntity | internal/repository/entity.go:64-81 | Inserts under the table's constraints, or refuses, and keeps the forest. |
| Entities.EntityBook.SetEntityOwnership | internal/repository/entity.go:84-97 | Changes one fraction, or refuses, and keeps the forest. |
| Entities.EntityBook.JoinChildren | internal/repository/entity.go:120-124 | One round of the recursive join. |
| Entities.EveryMemberIsConsolidated | internal/repository/consolidation.go:107-130 | In a consolidated scope every entity but the root is a subsidiary the structural eliminations visit, once. |
| CashFlow.CategoriesSumToCashChange | internal/repository/cashflow.go:17-64 | With entries balanced in base, as the trigger demands, they sum to the net change in cash, in every window. |
| CashFlow.CashRollForward | internal/repository/cashflow.go:17-64 | Opening cash plus the three figures is closing cash. |
| CashFlow.TransfersDoNotAppear | internal/repository/cashflow.go:21-25 | An entry between cash accounts contributes to no category. |
| CashFlow.OneActivity | internal/repository/cashflow.go:33-48 | Cash moved against fixed assets alone is all investing, against equity all financing, against anything else all operating. |
| Invoicing.RetriesAddUp | internal/ledger/invoicing.go:37-115 | Any history of interrupted calls leaves exactly the first k effects of one call: no effect happens twice. |
| Invoicing.EachOnce | internal/ledger/invoicing.go:70-113 | In whatever state the invoice is, each of the transactions leaves alone what an earlier one has done. |
| Invoicing.CutOffIsFinal | internal/ledger/invoicing.go:48-50 | An attempt cut off there leaves the revenue undeferred for good: the draft guard turns later calls away. |
| Invoicing.MarkedWithoutSchedule | internal/ledger/invoicing.go:88-113 | Concrete run: cut off after the mark and called again, a ratable invoice keeps its whole subtotal in revenue. |
| Invoicing.BooksAfter | internal/ledger/invoicing.go:56-113 | Receivables, output VAT, revenue and deferred revenue after any history of attempts; 2300 holds the subtotal exactly when all four transactions took effect and the invoice is ratable over at least one period with a positive subtotal. |
| Invoicing.PostableIff | internal/ledger/invoicing.go:56-62 | The entry is accepted exactly when the subtotal is positive and the total is subtotal plus the positive part of tax. |
| Invoicing.UnpostableIsRefused | internal/ledger/invoicing.go:70-80 | Otherwise every attempt is refused and changes nothing. |
| Invoicing.InvoiceDesk.BookPostedEntry | internal/ledger/invoicing.go:70-80 | Books once, or finds it booked, or is refused by the constraints. |
| Invoicing.InvoiceDesk.CreateAROpenItem | internal/ledger/invoicing.go:82-86 | Creates the item once; a duplicate is not an error. |
| Invoicing.InvoiceDesk.MarkInvoiceIssued | internal/repository/billing_invoices.go:194-201 | Marks a draft issued. |
| Invoicing.InvoiceDesk.CreateSchedule | internal/repository/revrec.go:69-150 | Defers and schedules once. |
| Invoicing.InvoiceDesk.IssueInvoice | internal/ledger/invoicing.go:40-115 | The sequence of transactions is the specified attempt, wherever it fails. |
| Money.RoundDivNearest | internal/repository/repository.go:70-80 | Rounding to a cent moves an amount by at most half of one. |

## Left out

- HTTP handlers, roles and tokens, message-broker, cache and storage clients, PDF, tax and bank adapters, configuration: input and output only.
- More than one currency or entity in the tie-outs of `Subledger`, `Grir`, `LeaseRuns`, `AssetRegister` and `YearEnd`; foreign documents are `Settlement` and `BaseAmounts`, entities are `Consolidation` and `Entities`.
- Account look-up failures and the optional natural-side restriction: every account the bookings name is taken to exist and to be unrestricted.
- Items created without an outbox event, manual status changes and deletions of items, late fees and withholding receipts: outside the conservation law.
- Open-item links to their entries, which change no amount, and in `Subledger` the order accruals an invoice clears, which are `Grir`'s.
- Subledger.OpenItemLedger.ConsumeDelivery: one invoice without its order accrual; both together are `Grir.GrirLedger.BookApInvoice`.
- LeaseRuns.WholeCentsTieOut: the plain case of `LeaseRounding.LiabilityTiesOutIff`, which is for all payments.
- BaseAmounts.InsertLines: base amounts a caller sets are taken to be in whole cents, as all callers round them.
- Inactive accounts in `GroupBalanceSheet`: the chart is that of active accounts.
- The reversal and draft-deletion paths in `PostingWindow`, and the bookings that never ask for a period (year-end close, invoice issue, reversal): the freeze is about the event paths and draft posting.
- The race between reading a period and posting a draft inside one transaction, which the source leaves to its isolation level: `PostingWindow.FiscalLedger.PostJournalEntry` is one step.
- Booking.Repository.BookPostedEntry: is the code with no other caller in between; the interleaved code is the step relation of `Booking`.
- Concurrent runs of depreciation and lease periods: each run is one step.
- Two roundings of the monthly lease rate in sequence: the division's sixteen-place rounding is the one modelled.
- AssetRegister.RegisterTiesOut: takes amounts with the signs the request handlers admit (positive cost, no negative salvage, recoverable or carrying amount), as do `AssetRegister.TiesOutIff` and `AssetRegister.SurplusTiesOut`; the account an asset is capitalised from may be any. `AssetRegister.SignsMatter` says what the repository does without the signs.
- AuditChain.SameHeadSameChain: idealises the digest as injective; row numbers are not part of the hash and are not compared.
- Approvals.ApprovalSafety: a fixed tier table; trimming and case folding are those of ASCII text.
- Hand-entered asset disposals and record-only registrations, which bypass the register.
- Invoicing.PostableIff: invoices in base currency, where nominal and base balance are the same; for others `BaseAmounts` says what conversion adds.
- Invoicing.ConvergesIff: one caller retrying; revenue recognition after the schedule is created is not modelled.
- Creation order stands in for the random identifiers of entities.
- The indirect cash-flow statement, currency revaluation, leave valuation, payroll, point-of-sale lines, tax and payments clearing, revenue and provision schedules.
- Texts: descriptions, memos, deferral notes and audit messages.
