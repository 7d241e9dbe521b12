# Market rental back end: the money engine, verified

This project models the parts of a market-rental back end that move, owe, cost or keep money, and proves
what they promise each other. Amounts are exact (`real`), except where the code rounds; contract dates are
whole days, and an instant such as "now" is a real number of days that is passed in. Every database
transaction is one step that commits or leaves the tables as they were.

Each engine comes in the same layers. A module of functions says what an operation does to the tables, or
why it is refused. A class then performs the operation statement by statement, loops included, and every
one of its methods is proved to have exactly the outcome of its function and to keep the invariant of its
engine. A third module proves, about the functions, what every run keeps and what whole runs promise. A
fourth, named after requests, says without naming those functions when each operation goes through and what
it writes: in terms of the columns of the tables and of what was asked for.

| engine | functions | as it runs | what is proved |
|---|---|---|---|
| rent | `RentTables`, `RentCharges`, `Calendar`, `ChargeGeneration`, `RentDebts`, `RentOps` | `RentService`, `ContractsService` | `Fifo`, `RentRuns`, `RentRequests`, `RentTheorems`, `RentConditions`, `RentRenewals` |
| accounts and ledger | `Ledger` | `MoneyService` | `LedgerRuns`, `LedgerRequests`, `LedgerUndo`, `AccountReports` |
| concurrent income edits | `IncomeConcurrency` | | `IncomeConcurrency` |
| electricity and meters | `Electricity` | `ElectricityService` | `ElectricityRuns`, `ElectricityRequests`, `Meters` |
| settlement across all three | `Settlement` | `ContractsService` | `Settlement`, `SettlementRuns`, `SettlementTheorems`, `OfficeRequests` |
| idempotent requests | `IdempotencyKeys`, `CanonicalJson`, `Idempotency` | `BulkPayments` | `Idempotency`, `BulkPayments` |
| stock | `Inventory` | `InventoryService`, `StockStatement` | `InventoryRuns`, `InventoryRequests`, `StockStatement` |
| concurrent stock requests | `InventoryConcurrency` | | `InventoryConcurrency`, `InventoryCommits` |
| list of payments | `Payments` | `Payments` | `Payments` |
| market backup and restore | `BackupFile`, `BackupRegistry`, `Restore` | `BackupFile`, `Restore` | `Restore`, `RestoreFailures` |
| depreciation, exchange rates | `Depreciation`, `Rates`, `Rounding` | `Depreciation` | `Depreciation`, `Rates` |

`Basics` and `TextOrder` hold small shared vocabulary.

## What the proofs turned up

Each of these has an input that shows it and the exact condition.

- A renewal that names no rent bills the net amount of the last charge of the old contract. After a
  discount, a write-off or a settlement that net can be zero, and the renewal then creates charges that are
  open with nothing left to pay (`RentTheorems.ForgivenThenRenewedBillsNothing`). It is the only way a charge
  that is not canceled comes to have nothing left and not be PAID (`RentRuns.RunKeepsPaidExactly`). Such a
  charge stays open until a payment reaches past it (`RentRuns.PaymentClosesDeadCharge`).
- The short last period of a contract makes its renewal cheaper (`RentRenewals.TenDaysRenewAtATen`,
  `RentRenewals.RenewalBillsTheLastPeriod`).
- Repricing bills the whole new rent for every period from a date on, also for one that the end of the
  contract cuts short, and it turns an OVERDUE charge back to PENDING
  (`RentConditions.RepricedTenDaysBillAMonth`, `RentConditions.RepricingBillsWholeRents`).
- A prorated termination resets gross and net of the spanning charge but keeps its old discount
  (`RentConditions.CutAfterDiscountLosesBalance`, `RentConditions.RunKeepsBalance`).
- Cancelling a draft and renewing do not recompute the rent debt cache, which a comment calls derived from
  the open charges (`RentConditions.CancellingLeavesCacheStale`, `RentConditions.CancellingKeepsAgreement`,
  `RentConditions.RenewingLeavesCacheStale`, `RentConditions.RenewingKeepsAgreement`).
- A list of two tables can be read page by page only as far as the merge window reaches
  (`Payments.LongListsCannotBeReadInFull`, `Payments.GatheredPagesShowEverything`).
- A restore aborts when another market has meanwhile taken a value that must be unique over all markets,
  such as the e-mail address of a user (`RestoreFailures.TakenEmailAborts`, `Restore.RestoreCommits`).
- A restore puts back password hashes but not the refresh tokens stored with users
  (`RestoreFailures.TokenIsLost`, `Restore.BackupThenRestoreIsIdentity`).
- Deleting an income right after it was recorded is refused when the account was overdrawn before
  (`LedgerUndo.IncomeOnOverdraftStays`, `LedgerUndo.IncomeRoundTrip`).
- An income edit looks at its account before its transaction, and an account deactivated in between still
  receives the income (`IncomeConcurrency.DeactivatedAccountReceives`, `IncomeConcurrency.EditGoesThrough`).
- Sales, uses, adjustments and transfers of stock are priced at the average cost read before their
  transaction. When a purchase changes it in between, the transactions no longer add up to the value of the
  stock (`InventoryConcurrency.StaleSaleLosesValue`, `InventoryConcurrency.InterleavingsKeepValue`).
- A removal looks at the stock before it removes the item, and takes along what was bought in between
  (`InventoryConcurrency.RemovalTakesStock`, `InventoryConcurrency.InterleavingsKeepDeletedEmpty`).

## Model

| member | source | states |
|---|---|---|
| `Calendar.AddOneMonthLength` | src/modules/rent/rent.service.ts:123-128 | advancing a date by one UTC month, with day overflow, moves it by exactly the length of the month it lies in |
| `Calendar.YearStartsAsInTheStandard` | src/modules/rent/rent.service.ts:123-128 | the calendar the months are taken from starts every year on the day ECMA-262 gives for it, with its three leap rules |
| `ChargeGeneration.GenerateCharges` | src/modules/rent/rent.service.ts:119-162 | the generation loop ends and yields exactly the charges of the recursive definition |
| `ChargeGeneration.GeneratedChargesTile` | src/modules/rent/rent.service.ts:119-162 | generated periods are contiguous, non-empty and together exactly the contract term; each natural period has the length of its calendar month, every charge but the last bills exactly the rent, the last its share by days |
| `ChargeGeneration.GeneratedChargesCoherent` | src/modules/rent/rent.service.ts:138-158 | generated rows agree in amounts and status; all of them are open with nothing to pay if the rent is zero, and none is otherwise |
| `Fifo.SharesAddUp` | src/modules/rent/rent.service.ts:168-213 | consuming an amount oldest-first hands out exactly the amount when it does not exceed the debt |
| `Fifo.Composes` | src/modules/rent/rent.service.ts:168-213 | consuming a and then b oldest-first leaves every row as consuming a + b in one pass |
| `Fifo.Shape` | src/modules/rent/rent.service.ts:189-212 | oldest-first consumption leaves an exhausted prefix, at most one partly consumed row and an untouched suffix |
| `RentService.RentService.AllocateToCharges` | src/modules/rent/rent.service.ts:168-213 | the walk with a running remainder gives each charge its closed-form share, writes the allocation rows for it, and refuses an amount above the outstanding total without a change |
| `RentService.RentService.RecordPayment` | src/modules/rent/rent.service.ts:323-465 | a payment is refused, with its reason and no change, or updates deposit, charges, allocations and debt cache together; sound tables stay sound and the cache agrees afterwards |
| `RentService.RentService.DiscountDebt` | src/modules/rent/rent.service.ts:924-1016 | a debt discount lowers net and remaining oldest-first and raises the discount, or changes nothing; sound tables stay sound and the cache agrees afterwards |
| `RentService.RentService.AdjustFutureRent` | src/modules/rent/rent.service.ts:827-915 | the not yet paid charges from a date on are repriced, all others kept; refusals change nothing; sound tables stay sound and the cache agrees afterwards |
| `RentService.RentService.WriteOffOpenCharges` | src/modules/rent/rent.service.ts:239-261 | every open charge of the contract, future ones included, is forgiven and closed |
| `RentService.RentService.FlagOverdueCharges` | src/modules/rent/rent.service.ts:1020-1028 | exactly the PENDING charges whose period has ended become OVERDUE |
| `RentService.GroupByCurrency` | src/modules/rent/rent-debt-summary.ts:29-57 | grouping open charges keeps each currency's charges, in order, and no others |
| `RentService.RentService.RecomputeRentDebt` | src/modules/rent/rent.service.ts:267-317 | the upserts and the zeroing of other currencies give the recomputed cache |
| `RentService.RentService.RebuildAllRentDebts` | src/modules/rent/rent.service.ts:680-704 | after a rebuild from any stale cache the rows of every tenant agree with the charge table, except those whose own transaction failed, which are reported and keep their rows |
| `RentDebts.RecomputeAgrees` | src/modules/rent/rent.service.ts:267-317 | after a recomputation every currency row of the tenant equals the sums over the tenant's open charges, an absent row counting as zero; overdue is at most total and CLEAN means nothing overdue |
| `RentDebts.RowShowsTheLatest` | src/modules/rent/rent-debt-summary.ts:39-57 | a currency with open charges shows the net amount and start of one of the latest of them and how many of these amounts are overdue (none, up to one, three, six, or more); any other row is zeroed and keeps the rest |
| `RentDebts.RecomputeIsLocal` | src/modules/rent/rent.service.ts:267-317 | a recomputation leaves all other tenants' rows alone |
| `RentDebts.RecomputeIdempotent` | src/modules/rent/rent-debt-summary.ts:29-57 | recomputing again at the same instant changes nothing |
| `RentDebts.RebuildAgreesFor` | src/modules/rent/rent.service.ts:680-704 | recomputing some tenants makes the cache agree for each of them and for all that need no visit, and leaves the rows of the others |
| `RentDebts.RebuildAgreesForAll` | src/modules/rent/rent.service.ts:680-704 | rebuilding the listed tenants makes the cache agree for all tenants and is idempotent at a fixed instant |
| `RentCharges.PaidExactlyUnlessDead` | src/modules/rent/rent.service.ts:138-158 | a row whose fields agree is PAID exactly when nothing remains unless it is open with nothing to pay, and such a row bills nothing and was never paid on |
| `RentCharges.PayCoherent` | src/modules/rent/rent.service.ts:189-212 | paying within what remains keeps the agreement of net, paid, remaining and status |
| `RentCharges.ForgiveCoherent` | src/modules/rent/rent.service.ts:963-990 | forgiving within what remains keeps that agreement |
| `RentCharges.RepriceCoherent` | src/modules/rent/rent.service.ts:870-894 | repricing an open charge keeps that agreement and bills the whole new rent |
| `RentCharges.ProrateCoherent` | src/modules/contracts/contracts.service.ts:543-569 | cutting a charge short at a day keeps that agreement |
| `RentRuns.StepKeepsInvariant` | src/modules/contracts/contracts.service.ts:808-866 | every step of any rent or contract operation keeps the charge, allocation, tiling and deposit invariant; PAID exactly when nothing remains survives it if and only if it is not a renewal that bills a zero rent |
| `RentRuns.RunKeepsInvariant` | src/modules/rent/rent.service.ts:119-1028 | over every serial run from any sound state: remaining is what net exceeds paid by, PAID means nothing remains, PARTIAL means paid in part, PENDING and OVERDUE unpaid; every charge has allocations for what it counts as paid and every payment is allocated in full; a standing contract has no CANCELED charge and its charges tile its term |
| `RentRuns.RunKeepsPaidExactly` | src/modules/rent/rent.service.ts:138-158 | PAID exactly when nothing remains holds throughout a run if and only if every renewal that went through billed a positive rent |
| `RentRuns.LetAtARentPaysExactly` | src/modules/rent/rent.service.ts:138-158 | a contract let at a positive rent has it in every state of every run, whatever is renewed elsewhere |
| `RentRuns.PaymentClosesDeadCharge` | src/modules/rent/rent.service.ts:189-209 | a payment that reaches a charge with nothing to pay makes it PAID with a share of zero; one that does not reach it leaves it |
| `RentTheorems.ForgivenThenRenewedBillsNothing` | src/modules/contracts/contracts.service.ts:808-845 | a concrete run in which a forgiven contract is renewed without a rent and gets a charge that is open with nothing left to pay |
| `RentTheorems.CreditsCompose` | src/modules/rent/rent.service.ts:947-990 | any run of payments and discounts on a contract that owes no negative amount, between steps that do not otherwise rewrite its charges, leaves exactly what consuming their total in one pass leaves |
| `RentTheorems.OverpaymentChangesNothing` | src/modules/rent/rent.service.ts:176-187 | a bank payment goes through exactly when its date and exchange rate are accepted and it does not exceed the open debt; an excess changes nothing |
| `RentTheorems.TerminationProrates` | src/modules/contracts/contracts.service.ts:532-578 | at most one charge spans the termination day and it bills its daily rate up to it; nothing that stays open ends later; earlier and paid later charges and all paid amounts are untouched |
| `RentTheorems.RenewalChainTiles` | src/modules/contracts/contracts.service.ts:775-845 | the charges of a chain of renewals of any length tile one unbroken interval |
| `RentTheorems.RecomputingStepAgrees` | src/modules/rent/rent.service.ts:267-317 | after each operation that recomputes, the cache rows of the tenant agree with the charges |
| `RentConditions.CancellingKeepsAgreement` | src/modules/contracts/contracts.service.ts:660-668 | a cache that agreed at an instant still agrees there after a draft is cancelled if and only if nothing was due on the draft by then; other tenants are not affected |
| `RentConditions.CancellingLeavesCacheStale` | src/modules/contracts/contracts.service.ts:660-668 | a concrete run in which cancelling a draft leaves the cache wrong |
| `RentConditions.RenewingKeepsAgreement` | src/modules/contracts/contracts.service.ts:820-866 | a cache that agreed at an instant still agrees there after a renewal if and only if the instant lies before the new term or the renewal bills nothing; other tenants are not affected |
| `RentConditions.RenewingLeavesCacheStale` | src/modules/contracts/contracts.service.ts:820-866 | a concrete run in which a renewal leaves the cache wrong |
| `RentConditions.RepricingBillsWholeRents` | src/modules/rent/rent.service.ts:870-894 | a repriced charge bills the whole new rent, which is its share by days if and only if its period is a full month or the rent is zero; repriced to zero it is PAID, otherwise PENDING, and the nightly job makes it OVERDUE again exactly when its period has ended |
| `RentConditions.RepricedTenDaysBillAMonth` | src/modules/rent/rent.service.ts:870-894 | a concrete run in which ten days are billed a month and an OVERDUE charge becomes PENDING |
| `RentRenewals.RunBillsByTheDay` | src/modules/rent/rent.service.ts:119-162 | over every serial run, whatever is paid, flagged, discounted, repriced, renewed or terminated, the gross amount of every charge of a contract that still stands is its share by days of the contract rent, and net is that less the discount |
| `RentRenewals.RenewalBillsTheLastPeriod` | src/modules/contracts/contracts.service.ts:808-866 | a renewal without a rent, at the end of any run, bills the share by days of the last period less its discount; that is the old rent if and only if the discount makes up the difference, and without a discount if and only if the last period is a full month or the rent is zero; a discount that takes something off never makes it more |
| `RentRenewals.TenDaysRenewAtATen` | src/modules/contracts/contracts.service.ts:808-845 | a concrete run in which ten days let at 31 a month are renewed at 10 a month, and the whole month after is billed 10 |
| `RentConditions.StepKeepsBalance` | src/modules/contracts/contracts.service.ts:549-569 | every step keeps gross less discount equal to net on every charge if and only if it is not a prorated termination that cuts a discounted charge |
| `RentConditions.RunKeepsBalance` | src/modules/contracts/contracts.service.ts:549-569 | the same throughout every serial run |
| `RentConditions.CutAfterDiscountLosesBalance` | src/modules/contracts/contracts.service.ts:549-569 | a concrete run in which proration leaves a discount that the gross amount no longer covers |
| `RentRequests.GoesThroughWhen` | src/modules/rent/rent.service.ts:323-380 | every rent and contract operation goes through exactly when its contract is in the state for it, its amount fits what is open and the deposit it comes from, its shop is free, and its date and rate are accepted; said of the columns alone |
| `RentRequests.PaymentWrites` | src/modules/rent/rent.service.ts:369-448 | a payment pays each charge of its own contract its oldest-first part, is recorded with its amount, and takes just that amount off the deposit of the same contract if it is paid from there; no other contract changes |
| `RentRequests.DiscountWrites` | src/modules/rent/rent.service.ts:947-1000 | a discount lowers net and remaining by the oldest-first part of each charge and raises its discount by it; no payment is recorded and no other contract changes |
| `RentRequests.AdjustmentWrites` | src/modules/rent/rent.service.ts:856-905 | exactly the charges not paid on that start on or after the day bill the new rent; every other charge and contract is as it was |
| `RentRequests.TerminationWrites` | src/modules/contracts/contracts.service.ts:532-600 | what each charge becomes: the one that holds the day ends there and bills its rate by the days up to it, unpaid later ones are canceled, all others stay; the contract ends on the day |
| `RentRequests.CreationWrites` | src/modules/contracts/contracts.service.ts:262-340 | one contract is added with the columns asked for, a draft if its first day is still to come, and with an opening payment of the amount given |
| `RentRequests.RenewalWrites` | src/modules/contracts/contracts.service.ts:800-866 | the old contract expires with no deposit left, and the successor starts on its end date with that deposit, for the same tenant in the same currency, at the rent asked for or what the last charge bills |
| `ContractsService.ContractsService.Create` | src/modules/contracts/contracts.service.ts:117-376 | creation is refused or yields the contract, its generated charges, the debt row and the opening payment, undone as a whole if that payment is refused; sound tables stay sound |
| `ContractsService.ContractsService.Terminate` | src/modules/contracts/contracts.service.ts:509-631 | termination cuts the spanning charge, cancels open charges that start on or after the day, and ends the contract there; sound tables stay sound and the cache agrees afterwards |
| `ContractsService.ContractsService.CancelDraft` | src/modules/contracts/contracts.service.ts:639-706 | a draft's open charges are canceled; a started contract is refused |
| `ContractsService.ContractsService.Renew` | src/modules/contracts/contracts.service.ts:715-911 | the old contract expires, its deposit moves, and the successor starts on its end date at the rent asked or the last charge's net |
| `ContractsService.ContractsService.FlagExpiredContracts` | src/modules/contracts/contracts.service.ts:1244-1249 | exactly the active contracts past their end become expired |
| `ContractsService.ContractsService.ActivateStartedContracts` | src/modules/contracts/contracts.service.ts:1255-1276 | exactly the drafts whose start has come become active |
| `ContractsService.ContractsService.OpenDebtForContract` | src/modules/rent/rent.service.ts:219-235 | the sum of what remains on the open charges whose period has started |
| `ContractsService.ContractsService.PayDebt` | src/modules/contracts/contracts.service.ts:1110-1236 | rent and electricity are paid together with their ledger rows, or nothing changes; all three sets of books stay sound |
| `ContractsService.ContractsService.PayElectricityFromDeposit` | src/modules/electricity/electricity.service.ts:918-985 | an electricity payment lowers the security deposit of the active contract with it, or nothing changes; all three sets of books stay sound |
| `ContractsService.ContractsService.Settle` | src/modules/contracts/contracts.service.ts:919-1100 | the settlement checks, the split of the cash, both payments, both write-offs and the settlement row, or nothing; all three sets of books stay sound |
| `Settlement.CashStaysOnDueCharges` | src/modules/contracts/contracts.service.ts:1010-1036 | cash up to the due debt is at most the open debt and reaches no charge whose period starts later |
| `SettlementTheorems.SettlesExactlyWhen` | src/modules/contracts/contracts.service.ts:936-1036 | a settlement goes through exactly when its contract is there and was not settled before, its cash fits (CASH is exactly the sum of the open amounts of started charges and open bills and more than nothing, MIXED at most that sum, WRITE_OFF and COLLATERAL none), and cash goes into an account that is there with an accepted date and a known rate |
| `SettlementTheorems.SettlementNeedsARate` | src/modules/rent/rent.service.ts:349-367 | the same with the entry looked up: cash needs a date whose day has come in Kabul, and a currency that is the base currency or has a rate on record |
| `SettlementTheorems.CashForgivesNothingDue` | src/modules/contracts/contracts.service.ts:1001-1070 | a settlement in CASH pays every charge that is due and every open bill in full and forgives nothing of them |
| `SettlementTheorems.SettlementIsRecorded` | src/modules/contracts/contracts.service.ts:984-1070 | the row of a settlement holds the sums of both debts it found and how it was settled; rows of other contracts stay |
| `SettlementTheorems.SettledOnce` | src/modules/contracts/contracts.service.ts:936-941 | once a contract was settled, no run of any operations leads to a state in which it can be settled again, and its row stays as it is |
| `SettlementTheorems.DepositsAreConserved` | src/modules/rent/rent.service.ts:369-380 | over every serial run, what is left of all deposits and what payments of rent and electricity took out of deposits is what was there plus what new contracts brought; renewals, terminations, settlements and bank payments move none of it |
| `SettlementTheorems.DepositsLeftAreWhatWasBrought` | src/modules/contracts/contracts.service.ts:820-866 | the same from empty tables: the deposits left are those brought in less all payments funded by a deposit |
| `Settlement.SettlementSettles` | src/modules/contracts/contracts.service.ts:984-1070 | afterwards no charge of the contract and no bill of the shop is open; cash plus what is forgiven equals all open debt, future charges included; no cash lies on a charge that is not due; the account grows by exactly the cash |
| `Settlement.SettlementKeeps` | src/modules/contracts/contracts.service.ts:1019-1070 | rent, electricity and ledger invariants all survive a settlement |
| `Settlement.PayDebtKeeps` | src/modules/contracts/contracts.service.ts:1150-1235 | rent, electricity and ledger invariants all survive a combined payment |
| `OfficeRequests.DebtIsPaidExactlyWhen` | src/modules/contracts/contracts.service.ts:1110-1180 | a combined payment goes through exactly when its contract and account are there, it pays something, its date and rate are accepted, and neither part exceeds what is open of it |
| `OfficeRequests.PayDebtWrites` | src/modules/contracts/contracts.service.ts:1150-1235 | each part comes off what is open of rent and of electricity, each part that is not zero is recorded, and the account grows by both; no other contract, account or settlement changes |
| `OfficeRequests.DepositPaymentDraws` | src/modules/electricity/electricity.service.ts:742-764 | an electricity payment out of the deposit goes through exactly when the deposit of the first active contract of the tenant for the shop covers it, its date and rate are accepted, and the bills ask for as much; it takes the amount off that deposit and nothing else of the contracts |
| `Settlement.DepositPaymentKeeps` | src/modules/electricity/electricity.service.ts:742-764 | a payment out of the deposit takes exactly its amount off the deposit of one contract of the tenant for the shop, never more than is there, and moves no money and no rent |
| `SettlementRuns.RunKeeps` | src/modules/contracts/contracts.service.ts:919-1236 | over every serial run of payments, settlements and all other operations the three sets of books stay sound, and the ledger rows of payments are, in order, exactly those the payments into bank accounts ask for |
| `SettlementRuns.BankPaymentsHaveOneRow` | src/modules/rent/rent.service.ts:428-448 | in every reachable state each rent and each electricity payment into a bank account has exactly one ledger row, IN and of its amount, and a payment out of a deposit or from before the books has none |
| `MoneyService.MoneyService.Debit` | src/modules/miscellaneous-income/miscellaneous-income.service.ts:575-586 | the conditional decrement lowers a balance that covers the amount, and reports 0 and changes nothing otherwise |
| `MoneyService.MoneyService.ReceiveOn` | src/modules/rent/rent.service.ts:381-448 | increment and IN row, as every incoming payment does it; balanced books stay balanced and no account is lowered below zero |
| `MoneyService.MoneyService.SpendFrom` | src/modules/expenses/expenses.service.ts:460-547 | guarded decrement and OUT row, or nothing; balanced books stay balanced and no account is lowered below zero |
| `MoneyService.MoneyService.TransferFunds` | src/modules/accounts/accounts.service.ts:324-480 | both balances and both rows move together, or the refusal changes nothing; balanced books stay balanced and no account is lowered below zero |
| `MoneyService.MoneyService.EditExpense` | src/modules/expenses/expenses.service.ts:924-1011 | the old effect is given back, the new one taken if covered, and the row rewritten; else everything is as before; balanced books stay balanced and no account is lowered below zero |
| `MoneyService.MoneyService.EditIncome` | src/modules/miscellaneous-income/miscellaneous-income.service.ts:1027-1237 | compare-and-set on id, amount and account; only the difference or both accounts move; the row is rewritten; balanced books stay balanced and no account is lowered below zero |
| `MoneyService.MoneyService.DeleteIncome` | src/modules/miscellaneous-income/miscellaneous-income.service.ts:1242-1298 | compare-and-set delete that needs the money to be there; balanced books stay balanced and no account is lowered below zero |
| `MoneyService.MoneyService.RepayLoan` | src/modules/dealers/dealer-loans.service.ts:216-319 | a repayment within what remains; SETTLED exactly at zero; balanced books stay balanced and no account is lowered below zero |
| `LedgerRuns.StepKeeps` | src/modules/accounts/accounts.service.ts:93-609 | every money operation keeps each balance equal to the IN minus OUT sum of its rows, every record explained by one row, loans adding up, and lowers no balance below zero |
| `LedgerRuns.RunKeepsBalances` | src/modules/accounts/accounts.service.ts:93-609 | the same over every serial run of all the money operations |
| `LedgerRequests.StepMovesWhatIsAsked` | src/modules/accounts/accounts.service.ts:524-609 | an operation that goes through moves each balance by what it asks for: deposits, receipts, sales and repayments add, withdrawals, expenses, purchases and loans take off, a transfer does both, an edit gives back the old and takes the new; no other balance moves |
| `LedgerRequests.BalancesAreRequests` | src/modules/accounts/accounts.service.ts:93-609 | over every serial run a balance is what it was plus the signed sum of what the operations asked of it, and it is the IN minus OUT sum of its rows |
| `LedgerRequests.StepWritesItsRows` | src/modules/accounts/accounts.service.ts:524-609 | an operation writes one row for each movement, IN for what comes and OUT for what goes, of its amount, on its account, with the balance it leaves; rows written before stay |
| `LedgerRequests.ExpenseEditRewrites` | src/modules/expenses/expenses.service.ts:960-1000 | an expense edit rewrites the one row of the expense, with the new account and amount, and no other |
| `LedgerRequests.IncomeEditRewrites` | src/modules/miscellaneous-income/miscellaneous-income.service.ts:1160-1216 | an income edit rewrites the one row of the income, with the new account and amount, and no other |
| `LedgerRequests.GoesThroughWhen` | src/modules/accounts/accounts.service.ts:324-360 | every money operation goes through exactly when the accounts it needs are there and active, the money that leaves an account is in it, and the row it edits is as it was read |
| `LedgerRequests.LoansAreRequests` | src/modules/dealers/dealer-loans.service.ts:216-319 | over every serial run a loan that is still there has been repaid by exactly the repayments of it that went through |
| `LedgerRuns.UpdateExpenseKeeps` | src/modules/expenses/expenses.service.ts:924-993 | an expense edit keeps the books for any old and new account |
| `LedgerRuns.UpdateIncomeKeeps` | src/modules/miscellaneous-income/miscellaneous-income.service.ts:1109-1216 | an income edit keeps the books for any old and new account |
| `LedgerRuns.OpenKeeps` | src/modules/accounts/accounts.service.ts:93-146 | a new account, also one opened overdrawn or at zero, is explained by the ledger from the start, and no other balance moves |
| `LedgerUndo.ExpenseRoundTrip` | src/modules/expenses/expenses.service.ts:1013-1041 | deleting an expense right after it was created always succeeds and restores the books |
| `LedgerUndo.ExpenseEditLeavesNoTrace` | src/modules/expenses/expenses.service.ts:924-1041 | deleting an edited expense leaves exactly the books of deleting it unedited |
| `LedgerUndo.IncomeRoundTrip` | src/modules/miscellaneous-income/miscellaneous-income.service.ts:1242-1298 | deleting an income right after it was created succeeds if and only if the account was not overdrawn before, and then restores the books |
| `LedgerUndo.IncomeOnOverdraftStays` | src/modules/miscellaneous-income/miscellaneous-income.service.ts:1242-1298 | a concrete income on an overdrawn account that cannot be deleted |
| `LedgerUndo.IncomeEditLeavesNoTrace` | src/modules/miscellaneous-income/miscellaneous-income.service.ts:1109-1298 | deleting an edited income leaves exactly the books of deleting it unedited |
| `LedgerUndo.LoanRoundTrip` | src/modules/dealers/dealer-loans.service.ts:429-461 | deleting a loan right after it was given always succeeds and restores the books |
| `LedgerUndo.TransferMovesTwoAccounts` | src/modules/accounts/accounts.service.ts:360-460 | a transfer moves two balances by what was sent and what was received and no third |
| `LedgerUndo.TransferAndBack` | src/modules/accounts/accounts.service.ts:360-460 | sending back what was received succeeds exactly when the receiver was not overdrawn, and restores all balances |
| `AccountReports.GetStatement` | src/modules/accounts/accounts.service.ts:664-750 | opening, running and closing balances of a range are the sums of its rows in date order |
| `AccountReports.BalancesAsOf` | src/modules/reports/account-balances.service.ts:67-97 | the as-of figure of each account is the ledger sum up to the end of the day |
| `AccountReports.GetOverview` | src/modules/reports/account-balances.service.ts:38-118 | the overview shows stored balances, or ledger sums up to a day; each currency that occurs has as its total the sum of the balances of its rows; past the last ledger row the two are the same |
| `AccountReports.ReportsShowStoredBalance` | src/modules/reports/account-balances.service.ts:67-97 | the as-of report past the last entry and the closing balance of a statement over all entries equal the stored balance |
| `IncomeConcurrency.InterleavingsKeepBalances` | src/modules/miscellaneous-income/miscellaneous-income.service.ts:1060-1280 | for any number of clients and any interleaving of reads, account checks and commits of income edits and deletes with all other money operations, balances equal ledger sums, whatever account is deactivated after it was checked |
| `IncomeConcurrency.EditGoesThrough` | src/modules/miscellaneous-income/miscellaneous-income.service.ts:1060-1216 | a commit of an edit goes through exactly when the income still has the amount and account that were read and the money that leaves an account is there; whether the account it goes into is still active plays no part |
| `IncomeConcurrency.DeactivatedAccountReceives` | src/modules/miscellaneous-income/miscellaneous-income.service.ts:1060-1216 | an account deactivated between the check and the commit still receives the income |
| `IncomeConcurrency.CommitReversesTheLedgerRow` | src/modules/miscellaneous-income/miscellaneous-income.service.ts:1109-1216 | a commit that goes through reverses exactly the amount and account then in the ledger |
| `IncomeConcurrency.StaleCommitChangesNothing` | src/modules/miscellaneous-income/miscellaneous-income.service.ts:1255-1280 | a commit whose snapshot is stale changes nothing |
| `IncomeConcurrency.NoSecondReversal` | src/modules/miscellaneous-income/miscellaneous-income.service.ts:1255-1280 | once an income is deleted no later commit touches it again |
| `Electricity.PeriodsTileTheYear` | src/modules/electricity/electricity.service.ts:178-202 | for each allowed period length every month of the year lies in exactly one period |
| `ElectricityRuns.QueueInOrder` | src/modules/electricity/electricity.service.ts:537-540 | the open bills are listed once each, by start of period and then as created |
| `ElectricityRuns.AheadOnQueue` | src/modules/electricity/electricity.service.ts:553-575 | the running total of the walk at a bill is what all earlier bills of the shop owe |
| `ElectricityRuns.RowsOfWholePayment` | src/modules/electricity/electricity.service.ts:530-576 | the allocation rows of a payment add up to it, bill by bill and in all |
| `ElectricityRuns.PaymentIsOldestFirst` | src/modules/electricity/electricity.service.ts:530-576 | a payment exhausts the oldest bills, at most one more in part, and takes exactly its amount off the shop's debt; other bills are untouched |
| `ElectricityRequests.PaymentGoesThroughWhen` | src/modules/electricity/electricity.service.ts:864-990 | a payment goes through exactly when its date and rate are accepted, the deposit covers it if it comes from there, and the bill named, or else all open bills of the shop together, ask for as much |
| `ElectricityRequests.PaymentOfOneBill` | src/modules/electricity/electricity.service.ts:578-632 | a payment that names a bill lands on that bill in full and on no other, and is recorded and allocated in one row |
| `ElectricityRequests.PaymentOfAllBills` | src/modules/electricity/electricity.service.ts:530-576 | a payment of a shop changes no bill of another tenant or shop and takes exactly its amount off the queue, oldest first |
| `ElectricityRequests.BillGoesThroughWhen` | src/modules/electricity/electricity.service.ts:241-462 | a bill is created exactly when its meter fits, its period exists and is free, its reading date lies in it, there is a total for it, and what is said to be paid does not exceed that |
| `ElectricityRequests.BillWrites` | src/modules/electricity/electricity.service.ts:393-462 | the new bill has the columns asked for, the total given or the rate times the reading's advance; its meter moves forward to the reading; nothing else changes |
| `ElectricityRequests.ReplacementStartsAnew` | src/modules/meters/meters.service.ts:275-353 | a device is replaced exactly when it is active and was last read, if ever, at the final reading; it is switched off with it and a new active device on the same shop starts at the reading asked for |
| `ElectricityRequests.CheckpointBinds` | src/modules/contracts/contracts.service.ts:203-312 | a contract starts on a meter exactly when it is free or on the shop and the reading does not run backwards; what it ran through unread counts as unbilled |
| `ElectricityRequests.DebtRowNamesTheLatest` | src/modules/electricity/electricity.service.ts:659-692 | the stored row of a tenant names an open bill of the latest period, or keeps what it named when none is open; rows of other tenants stay |
| `ElectricityRuns.StepKeeps` | src/modules/electricity/electricity.service.ts:118-1258 | every operation keeps paid + remaining = total with PAID exactly at zero, payments fully allocated, periods billed once, and each tenant's stored debt equal to the open remainders |
| `ElectricityRuns.RunKeeps` | src/modules/electricity/electricity.service.ts:118-1258 | the same over every run from any sound state |
| `ElectricityRuns.ReachableTablesAreSound` | src/modules/electricity/electricity.service.ts:659-692 | in every state reached from empty tables the stored debt of each tenant is what the open bills of the tenant add up to |
| `ElectricityRuns.MonthsAreBilledOnce` | src/modules/electricity/electricity.service.ts:118-150 | no month of a year is billed twice to one contract, since period lengths are frozen by the first bill |
| `ElectricityService.ElectricityService.AllocateToBills` | src/modules/electricity/electricity.service.ts:530-576 | the walk gives each bill its closed-form share and writes its rows; an amount above the outstanding total changes nothing |
| `ElectricityService.ElectricityService.RecomputeElectricityDebt` | src/modules/electricity/electricity.service.ts:659-692 | the reduced sum and the latest bill are upserted |
| `ElectricityService.ElectricityService.RecordPayment` | src/modules/electricity/electricity.service.ts:698-860 | over all open bills or on one, or refused with nothing changed; sound tables stay sound, stored debts included |
| `ElectricityService.ElectricityService.CreatePayment` | src/modules/electricity/electricity.service.ts:864-990 | the checks on the bill or shop, then the payment; sound tables stay sound |
| `ElectricityService.ElectricityService.WriteOffOpenBillsForShop` | src/modules/electricity/electricity.service.ts:634-655 | open bills of the tenant and shop are reduced to what was paid |
| `ElectricityService.ElectricityService.FlagOverdueBills` | src/modules/electricity/electricity.service.ts:1250-1258 | exactly the PENDING bills past their period become OVERDUE |
| `ElectricityService.ElectricityService.CreateBill` | src/modules/electricity/electricity.service.ts:393-462 | the row, the meter moved forward only, and the debt; a billed period is refused; sound tables stay sound |
| `Meters.BillMatchesMeter` | src/modules/electricity/electricity.service.ts:327-370 | the units of one live bill are the units its meter moves if and only if it starts at the meter's reading, or lies wholly behind it and charges nothing |
| `Meters.AutomaticBillChargesTheAdvance` | src/modules/electricity/electricity.service.ts:346-370 | a bill without a manual total charges the rate times what the meter moved |
| `Meters.AutomaticBillChargesItsUnits` | src/modules/electricity/electricity.service.ts:327-391 | what it charges is the rate times the units it records, up to half a hundredth of a unit, none of it paid yet |
| `Meters.StepConserves` | src/modules/electricity/electricity-bill-snapshot.ts:28-49 | each operation keeps the units billed on a meter equal to what it ran through |
| `Meters.RunConserves` | src/modules/electricity/electricity-bill-snapshot.ts:35-46 | over any run of live bills, payments, contract starts and replacements the units billed on each meter are what it ran through: exactly for readings of two places, within half a hundredth per bill otherwise |
| `Meters.ChainConserves` | src/modules/meters/meters.service.ts:298-353 | over any run, the devices put one after the other in the place of a meter are different devices on its shop, and the units billed on all of them are what they ran through: no unit is billed twice or lost |
| `Meters.RetiredMetersAreFullyBilled` | src/modules/meters/meters.service.ts:298-311 | a device taken off is billed up to the reading it was taken off with |
| `IdempotencyKeys.ParsingIsStable` | src/common/idempotency/idempotency.ts:29-46 | a parsed key matches the pattern and parses to itself; blank is no key; several headers are refused |
| `IdempotencyKeys.KeysAreSpelled` | src/common/idempotency/idempotency.ts:26-45 | a key is exactly 8 to 100 capitals, small letters, digits and the signs dot, underscore, colon and hyphen |
| `IdempotencyKeys.TrimTakesOffSpaces` | src/common/idempotency/idempotency.ts:38-39 | trimming a key or a receipt takes off the white space at both ends and nothing else |
| `IdempotencyKeys.ItemKeysAreDistinct` | src/common/idempotency/idempotency.ts:50-55 | item keys are injective in key and index and never a key a client can send |
| `CanonicalJson.CanonicalFormDecidesSameness` | src/common/idempotency/idempotency.ts:58-68 | two bodies have the same canonical form if and only if they differ in the order of object members at most |
| `Idempotency.StepKeeps` | src/common/idempotency/idempotency.ts:84-121 | every step of any client or of the purge keeps the protocol invariant |
| `Idempotency.AtMostOneEffect` | src/common/idempotency/idempotency.ts:84-121 | in every interleaving, two committed effects of one key have a purge between them and lie more than the time to live apart |
| `Idempotency.RepliesAgree` | src/common/idempotency/idempotency.ts:92-106 | every success told repeats committed work with the same body; all successes for a key between two purges are the same |
| `Idempotency.OnlyFinishHasEffects` | src/common/idempotency/idempotency.ts:92-121 | a different body is refused without effect, failing work leaves no trace and the key free, and a finish never meets a taken key |
| `Idempotency.PurgeKeeps` | src/common/idempotency/idempotency-cleanup.service.ts:13-18 | deleting expired rows keeps the invariant |
| `BulkPayments.Runner.RunIdempotent` | src/common/idempotency/idempotency.ts:84-121 | the handler takes a request without competitors through the steps of the machine; it keeps the invariant of the machine, answers only with work committed under the key with the same body, and adds at most that one piece of work |
| `BulkPayments.Runner.CreatePaymentsBulk` | src/modules/rent/rent.service.ts:549-593 | for each item: refused as repeated exactly when its trimmed receipt is not blank and an earlier item with it was created; otherwise created exactly when its key was committed with the same body, with that response, or its key was free and its work succeeds, with that one; refused for the reason that applies in every other case |
| `BulkPayments.RetriesApplyItemsOnce` | src/modules/rent/rent.service.ts:549-593 | in every schedule of bulk requests, their retries and single requests at the same time, each item takes effect at most once between two purges and at most once within the time to live; items never share a key with each other or with a single request |
| `BulkPayments.SessionsReportCommittedWork` | src/modules/rent/rent.service.ts:558-593 | what a request reports as created is work committed for that item and body, by it or by another; each item is reported once |
| `BulkPayments.OnlyRepeatedReceiptsAreRefused` | src/modules/rent/rent.service.ts:558-580 | in every schedule, an item that was dealt with is refused as repeated exactly when its receipt is not blank and an earlier item of the request with that receipt was created |
| `BulkPayments.RetriesReplay` | src/modules/rent/rent.service.ts:570-581 | until a purge, all requests under one key report the same response for an item, however they are interleaved |
| `InventoryRuns.BlendKeepsValue` | src/modules/inventory/inventory.service.ts:1172-1177 | the weighted average values the joined stock at the sum of both values |
| `InventoryRuns.StepKeeps` | src/modules/inventory/inventory.service.ts:1104-1330 | every stock operation keeps quantity equal to the signed transactions and never negative, quantity times average cost equal to their signed costs, and names unique in a warehouse |
| `InventoryRuns.RunKeepsStock` | src/modules/inventory/inventory.service.ts:1104-1502 | the same over every serial run, together with the ledger invariant |
| `InventoryRuns.ReachableStockIsSound` | src/modules/inventory/inventory.service.ts:452-1502 | the same in every state reached from an empty store |
| `InventoryRuns.CreateItemKeeps` | src/modules/inventory/inventory.service.ts:509-543 | a new item is explained from the start: its opening stock by an opening adjustment, in units and in value |
| `InventoryRuns.DeletionIsFinal` | src/modules/inventory/inventory.service.ts:715-743 | a deleted item had nothing left, no later step of any run touches it, and its name stays taken in its warehouse |
| `InventoryRequests.GoesThroughWhen` | src/modules/inventory/inventory.service.ts:1104-1502 | every stock operation goes through exactly when the item is there, active and holds enough, the name it gets is free or held by a fitting item, and the account it moves money on is active and holds enough |
| `InventoryRequests.TransactionWrites` | src/modules/inventory/inventory.service.ts:1166-1260 | a transaction changes the quantity of its own item by its signed units, the average cost only if it buys, and is recorded with what it comes to, a sale with the cost of what was sold |
| `InventoryRequests.TransactionMovesMoney` | src/modules/inventory/inventory.service.ts:1180-1225 | a purchase takes what it costs off its account, a sale brings what it earns, use and adjustment move no money |
| `InventoryRequests.TransferWrites` | src/modules/inventory/inventory.service.ts:1403-1502 | units leave the item and join the item of its name in the other warehouse, or a new one with the name, unit, currency and cost of the item they come from; both sides are recorded at that cost, and no other item changes |
| `InventoryRuns.TransferConserves` | src/modules/inventory/inventory.service.ts:1403-1502 | a transfer conserves total units and total value over all warehouses |
| `InventoryConcurrency.InterleavingsKeepStock` | src/modules/inventory/inventory.service.ts:1104-1502 | for any number of clients and any interleaving of reads, account checks and commits, every quantity is the signed sum of its transactions and never negative, the ledger explains the balances, and the worth of an item differs from its transactions by exactly what the commits on it mispriced: units moved times the average cost in force less the one read |
| `InventoryConcurrency.InterleavingsKeepValue` | src/modules/inventory/inventory.service.ts:1166-1260 | the stock is worth what its transactions say, throughout, if and only if every sale, consumption, adjustment and transfer that went through found the average cost it had read still in force |
| `InventoryConcurrency.StaleSaleLosesValue` | src/modules/inventory/inventory.service.ts:1209-1217 | a concrete interleaving of a purchase and a sale after which the transactions value the stock at 5 too much |
| `InventoryConcurrency.InterleavingsKeepDeletedEmpty` | src/modules/inventory/inventory.service.ts:715-731 | deleted items are empty, throughout, if and only if no removal that went through found stock when it committed and no purchase or upward adjustment went into a deleted item |
| `InventoryConcurrency.RemovalTakesStock` | src/modules/inventory/inventory.service.ts:715-731 | a concrete interleaving in which an item is removed with ten units in it |
| `InventoryConcurrency.FreshTransactionIsSerial` | src/modules/inventory/inventory.service.ts:1104-1260 | on a snapshot that is still current and a usable account, a commit is the operation of a serial run |
| `InventoryConcurrency.FreshTransferIsSerial` | src/modules/inventory/inventory.service.ts:1334-1502 | the same for a transfer |
| `InventoryCommits.CommitsGoThroughWhen` | src/modules/inventory/inventory.service.ts:1104-1502 | a commit goes through exactly when the item it read was active, the units that leave are there now, a purchase finds quantity and cost as read, the account it checked covers it, and names fit; whether the item was deactivated or removed meanwhile plays no part, nor what a removal finds left |
| `InventoryCommits.SnapshotsWereTrue` | src/modules/inventory/inventory.service.ts:1104-1165 | in every interleaving, what a request works from is an item that it read undeleted, as it was then, and an account that was there and active when it checked it after that; it has committed nothing since |
| `InventoryService.InventoryService.Purchase` | src/modules/inventory/inventory.service.ts:1171-1208 | blended cost by compare-and-set and money out, both or neither; sound stock and books stay sound |
| `InventoryService.InventoryService.Sell` | src/modules/inventory/inventory.service.ts:1209-1225 | guarded decrement, cost of goods at the average, money in; sound stock and books stay sound |
| `InventoryService.InventoryService.Transfer` | src/modules/inventory/inventory.service.ts:1334-1502 | units leave the source and join or create the item of that name in the target, or nothing changes, also when a deleted item holds the name; sound stock and books stay sound |
| `StockStatement.ComputeItemStatement` | src/modules/inventory/inventory.service.ts:845-926 | opening and closing replay the transactions before the range and before its end; each kind shows its sum within |
| `StockStatement.GroupingLosesNothing` | src/modules/inventory/inventory.service.ts:828-870 | signing grouped sums by kind equals signing transactions one by one |
| `StockStatement.StatementsReplayTheStock` | src/modules/inventory/inventory.service.ts:845-926 | over all history a statement opens at zero and closes at the stored quantity, in every reachable state |
| `Payments.ComparisonIsTheOrder` | src/modules/payments/payments-merge.ts:102-111 | the comparison is a strict total order on time and id, the one the tables are read in |
| `Payments.TopKMergeIsThePage` | src/modules/payments/payments-merge.ts:113-126 | merging the first skip + limit rows of each sorted table and slicing is that window of the sorted union, in both directions |
| `Payments.PagesShowWhatIsAskedFor` | src/modules/payments/payments.service.ts:113-209 | a page is given exactly when the kind asked for may be seen, or none is asked for and some kind may, and with two kinds the page ends within the first 5000 rows; it is the window of that number and size (1 to 100, 20 if none is asked) of the sorted rows, and every row on it is of a kind that may be seen and is asked for |
| `Payments.GatheredPagesShowEverything` | src/modules/payments/payments.service.ts:129-209 | asking page after page gives the sorted list in full if and only if the pages cover it and the last one is not too deep; a row of the tables is in it exactly when its kind may be seen and is asked for or none is |
| `Payments.LongListsCannotBeReadInFull` | src/modules/payments/payments.service.ts:51-137 | a list of two tables with more rows than the merge window cannot be read in full, whatever the page size |
| `Payments.MergeCurrencySummary` | src/modules/payments/payments-merge.ts:135-161 | each currency's total and count are the sums of its groups; no other currency appears |
| `Payments.SummaryCoversBothTables` | src/modules/payments/payments.service.ts:211-220 | joined groups sum every row of both tables in its own currency |
| `BackupFile.DumpTable` | src/modules/backups/market-backups.service.ts:387-406 | the cursor loop writes each row once, in id order, for any table and batch size |
| `BackupFile.Execute` | src/modules/backups/market-backups.service.ts:366-414 | header, every table and a footer with the true counts |
| `BackupFile.ParseBackup` | src/tools/market-backup-tool.ts:54-106 | the line loop and the closing checks |
| `BackupFile.DumpParses` | src/tools/market-backup-tool.ts:96-103 | a dump always parses: its counts check and every table comes back in order |
| `BackupFile.TruncatedFileIsRefused` | src/tools/market-backup-tool.ts:91-92 | a file cut off anywhere before its end is refused |
| `BackupRegistry.RegistryIsWellFormed` | src/modules/backups/backup-registry.ts:24-80 | the registry lists models once and parents before the children that belong through them |
| `Restore.DeletionIsExact` | src/tools/market-backup-tool.ts:182-187 | deleting in reverse order removes exactly the market's rows, the audit log excepted |
| `Restore.Tool.Restore` | src/tools/market-backup-tool.ts:128-232 | without confirmation nothing happens; an abort leaves the database as it was |
| `Restore.DumpedFileIsABackup` | src/modules/backups/market-backups.service.ts:381-414 | what is written is read back as a backup of the market |
| `Restore.RestoreReplacesTheMarket` | src/tools/market-backup-tool.ts:182-218 | a committed restore leaves exactly the dumped rows, up to the columns the file never carries, in every table of the market, all rows of other markets as they were, and an audit log that only grew |
| `Restore.RestoreCommits` | src/tools/market-backup-tool.ts:182-218 | with foreign keys in place a restore commits if and only if there is room for the file: every id and every value under a unique index in it is free among the rows the deletion leaves, and the audit log covers its part |
| `RestoreFailures.TakenEmailAborts` | prisma/models/user.prisma:4-16 | a concrete restore that aborts although all its ids are free, because another market has taken an e-mail address of the file |
| `Restore.LogHasRoom` | src/tools/market-backup-tool.ts:204-218 | the audit log covers its part whenever an id of the file that is in the log names a row of the market |
| `Restore.BackupThenRestoreIsIdentity` | src/tools/market-backup-tool.ts:175-218 | restoring right after a backup succeeds and changes nothing but the refresh tokens stored with the users of the market, which are lost; it changes nothing at all if and only if none has one |
| `RestoreFailures.TokenIsLost` | src/tools/market-backup-tool.ts:175-206 | a concrete user who comes back with the password but without the refresh token |
| `Depreciation.YearsAreAnniversaries` | src/modules/assets/assets.service.ts:591-598 | a year has elapsed for each anniversary that has come |
| `Depreciation.AssetService.ApplyOneDepreciationYear` | src/modules/assets/assets.service.ts:600-647 | one year is applied exactly when the asset is active, has value and has years left |
| `Depreciation.AssetService.ApplyScheduledDepreciation` | src/modules/assets/assets.service.ts:650-673 | each active asset gets its missing years, stopping where nothing more can be applied |
| `Depreciation.CatchUpIsConfluent` | src/modules/assets/assets.service.ts:650-673 | on any increasing set of days the job leaves what one run on the last day leaves |
| `Depreciation.BookValueOverAnySchedule` | src/modules/assets/assets.service.ts:600-673 | book value is price less events and never negative, each event is the annual amount or what is left, at most lifespan events, and zero once the years have passed |
| `Depreciation.BookValueIsStraightLine` | src/modules/assets/assets.service.ts:591-673 | on any schedule of the job the book value is the price less the annual amount for each anniversary that has come, not below zero, and zero once the years of life are over; a year is recorded exactly when its anniversary has come, within the years of life, and something was left for it |
| `Rates.RateOnRecord` | src/common/utils/resolve-rate-to-base.ts:43-67 | without a manual rate the latest rate in force is used, or before all of them the first; refused exactly when there is none |
| `Rates.RateLookup` | src/common/utils/resolve-rate-to-base.ts:33-67 | without a manual rate the lookup succeeds exactly when the base currency is set and the currency is that one or has some rate on record |
| `Rates.FutureStartsAtKabulMidnight` | src/common/utils/assert-payment-date.ts:11-20 | a payment date lies in the future exactly from the next midnight in Kabul on, which is at most a day away; a later instant on the same day in Kabul does not |
| `Rates.TodayInKabul` | src/common/utils/kabul-date.ts:2-15 | at ten in the evening UTC a date without a time for the next day is today in Kabul and accepted, and seven and a half in the evening UTC of that day is refused |
| `Rates.BaseAmountIsClose` | src/common/utils/resolve-rate-to-base.ts:36-70 | the base amount is within half of the fourth place of amount times the chosen rate; 1 for the base currency, the manual rate when given |
| `Rates.SameCurrencyIsWorthTheSame` | src/modules/accounts/accounts.service.ts:363-385 | both sides of a transfer within a currency have equal base amounts |
| `Rates.TransferRoundingBound` | src/modules/accounts/accounts.service.ts:363-385 | across currencies without a manual rate the two base amounts differ by at most 0.0001 + toRate * (0.00005 + amount * 0.00000000005) |
| `Rounding.RoundingError` | src/common/utils/resolve-rate-to-base.ts:70-70 | rounding to n places moves a value by at most half of the last place |

## Left out

- Access control, request validation beyond the signs of amounts, market membership and setup checks, audit log rows and their texts, notes, receipt numbers of payments and their uniqueness: plumbing around the operations.
- Shops and their status, contract status history, guarantors, shareholders, collateral and lottery: not part of this model.
- Currencies of accounts: the checks that an account has the currency of the contract, bill or item, and the rate lookups of operations other than rent and electricity payments.
- Column scales of the database, and the 20 significant digits of the decimal library, except at the explicit roundings to 2, 4 and 10 places.
- The order of rows that tie on the sort column: ties are taken in the order of creation.
- RentService.RentService.RecordPayment: the money side of a rent payment is `ContractsService.PayRentIfAny`, over the account and ledger tables.
- ContractsService.ContractsService.Create: the deposit is a number on the contract; its ledger row is `MoneyService.ReceiveOn`, and the meter checkpoint is `Electricity.Checkpoint`. Neither is part of this method.
- ContractsService.ContractsService.PayDebt: one currency; a bill in another currency than the account is refused in the code.
- At most one active contract per shop is not claimed: creation does not look at drafts, and the nightly job activates every draft that has started.
- MoneyService.MoneyService.TransferFunds: the received amount is a parameter; `Rates.Convert` says how it is computed.
- MoneyService.MoneyService.EditExpense: edits of amount and account; edits of the date or texts alone are not modelled.
- MoneyService.MoneyService.EditIncome: the same.
- MoneyService.MoneyService.LendOut: credit limits and the status of the dealer are left out.
- MoneyService.MoneyService.RepayLoan: the check on the repayment date is left out.
- IncomeConcurrency.InterleavingsKeepBalances: interleavings are claimed where the code guards the commit. Every other operation is one step whose account checks may be out of date but whose other reads are current; expense and loan removal, deposit-funded payments, allocation and the meter read of a bill are modelled as serial steps.
- InventoryConcurrency.InterleavingsKeepStock: the item at which a transfer arrives is read inside its transaction and taken to be current there; a conflict on it aborts the transfer and is left out.
- SettlementRuns.RunKeeps: operations run one after the other. The id under which a ledger row refers to its payment is kept beside the payment row.
- ElectricityService.ElectricityService.RecordPayment: takes what is left of the security deposit as a parameter; `ContractsService.PayElectricityFromDeposit` looks it up and writes it back, and `ContractsService.PayElectricityIfAny` has the money side.
- ElectricityRuns.RunKeeps: adds up a tenant's debt over all bills as the code does, whatever their currency.
- Meters.RunConserves: covers live bills that start from the meter's own reading. Bills taken over from paper, readings given over the meter's and edits of a meter by hand are not part of the claim; `Meters.BillMatchesMeter` says exactly when one bill with its own starting reading still fits.
- Meters.ChainConserves: serial numbers, dates and shop groups of meters are left out.
- Idempotency.AtMostOneEffect: a request hash stands for the body; collisions of the hash are not considered. A request without a key is a plain transaction and is not part of the machine.
- CanonicalJson.CanonicalFormDecidesSameness: member names that look like array indices are ordered by the source's runtime before all others; the model orders all names by code unit, which decides sameness alike.
- BulkPayments.Runner.CreatePaymentsBulk: how each item's work would end is a parameter, the checks of contract and account before the runner are part of that outcome, and error texts are not distinguished.
- BulkPayments.RetriesReplay: reports of items that were refused may differ between retries; nothing is claimed about them.
- Payments.ComparisonIsTheOrder: the order of the tables and the comparison in memory use one time. In the database it has microseconds and in memory milliseconds, so rows of one millisecond may come in another order than the comparison gives them; the claims are for times that differ by a millisecond or more or tie in both.
- Payments.MergeCurrencySummary: the final sort of the summary by currency code, which follows the locale.
- BackupFile.ParseBackup: lines arrive decoded; compression, checksums, blank lines and malformed JSON are left out, as are schema versions.
- BackupFile.DumpTable: every table is paged by its id; the code reads tables without an id column in one query.
- Restore.RestoreReplacesTheMarket: rows are an id, a market, a parent, the values under unique indexes, two parts that the file never carries, and the rest as one value; null handling of JSON columns is left out. Users that were not there get one locked password.
- Restore.RestoreCommits: constraints other than ids, unique indexes and the closing counts, such as lost connections and column types, are not considered.
- AccountReports.GetOverview: the valuation of the balances in base currency.
- Depreciation.CatchUpIsConfluent: an asset that is not edited, switched off or deleted between runs.
- Debt views over several currencies, aging buckets, dashboards, searches and filters: they would add only easy members.
- The rate limiter, and the scheduling and retention of backups.
