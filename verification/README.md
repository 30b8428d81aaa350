# Verified model of the Byte_squad back office

A Dafny model of the parts of the point-of-sale system whose correctness is not visible in one
function body, with machine-checked proofs. `dafny verify dfyconfig.toml` checks all of it.

| file | what it models |
|---|---|
| `Text.dfy`, `Calendar.dfy`, `Options.dfy` | decimal and fixed-width texts, dates as text in several ISO 8601 forms, month keys |
| `Money.dfy`, `Sums.dfy` | rounding to cents and its carries; sums of selected rows and their partition by a key |
| `Ledger.dfy` | ledger rows, the chart of accounts, classification of postings and the backfill CASE |
| `Books.dfy` | the accounting services as one transition function over tables and in-process caches |
| `AccountingServices.dfy` | the same services as classes with fields, loops, a transaction and its rollback, each method proved equal to its transition |
| `BookTheorems.dfy`, `Chokepoint.dfy`, `Expenses.dfy`, `BranchScopes.dfy`, `Vouchers.dfy`, `VoucherTotals.dfy` | theorems about whole runs of service calls |
| `FinancialReports.dfy` | trial balance, balance sheet, day book, summary over one ledger |
| `FiscalCache.dfy` | the period-lock cache with refreshes in flight and other processes |
| `VoucherNumbering.dfy` | voucher numbers under interleaved transactions with a row lock |
| `RefreshTokens.dfy`, `TokenHistory.dfy` | rotating refresh-token families (the scheme of section 10.4 of RFC 6749), and the tokens of a run against the calls that made them |
| `ScanDetection.dfy` | the timed barcode detector against a batch reading of the key trace |
| `UnitQuantity.dfy` | cash to weight and back in exact arithmetic |
| `UnitMigration.dfy` | the KG / L / UNIT data migration |
| `ProductComparison.dfy` | the product x branch comparison, its index and its pages |
| `PasswordGenerator.dfy` | the temporary password and its in-place shuffle |

Conventions. Incoming amounts are exact reals, stored amounts whole cents (halves round up), time is a
natural number of milliseconds, dates are calendar dates. An entry date is the text the services hold,
of which they slice year and month, together with the date the database stores for it. Generated ids,
raw tokens and random numbers are parameters; where freshness matters a run predicate says so. A
database transaction is a saved copy of the tables that a refusal restores. A service call is one
atomic step, except in `FiscalCache` and `VoucherNumbering`, where the steps inside a call interleave; there a verdict is
taken together with the freshness test or the installation before it, since nothing is awaited from
a database between them.

Where the code and its comments differ, the model follows the code, and the difference is a theorem:

- A voucher is documented as balanced by construction. The check rounds the sums and storage rounds
  each line, so fractional cents can leave a gap: `BookTheorems.VoucherRoundingGap` gives its exact
  value and when it is zero, `Vouchers.AcceptedButUnbalanced` an accepted voucher whose rows are off.
- `assertOpen` is documented to get `YYYY-MM-DD`, but the request admits other ISO 8601 forms and only
  slices of the text are looked at. A journal dated `20251231` is stored in December 2025 and checked
  against month 23, so it enters the closed month: `Vouchers.MisreadTextEntersClosedMonth`,
  `Vouchers.LastOf2025EntersClosedDecember`. `Calendar.KeyLookup` says for which texts the check decides
  the stored month, `Calendar.BasicReadsRightIff` and `Calendar.YearDayReadsRightIff` when that is so.
- Locking is documented as busting the cache immediately. A refresh that read before the lock and
  installs after it brings the old set back: `FiscalCache.RefreshStraddlingALock`;
  `FiscalCache.ExactIffAligned` says exactly in which states, and `FiscalCache.ExactIffQuiet` after which
  steps, every verdict until the next lock or unlock is right.
- `revoke` is documented as revoking the whole family of a presented token. For a spent token it does
  nothing: `RefreshTokens.LogoutAndReplayLimits`, with `RefreshTokens.LogoutWithOldToken` and
  `RefreshTokens.ReplayAfterCleanup` as runs after which the family is still active.
- `amountForQuantity` is documented as the inverse of `quantityForAmount`. It is one exactly up to a
  price: `UnitQuantity.AmountRoundTripIff` and `UnitQuantity.QuantityRoundTripIff`.
- `cleanBarcode` is documented as stripping known suffixes. An empty string among them erases every
  scan: `ScanDetection.EmptySuffixErasesEveryScan`. The safety timer, documented as the reset for a
  missing Enter, matters only when the maximum gap is zero: `ScanDetection.TimerIsRedundantIff`.
- An order line by amount is documented to carry the derived weight. The API refuses amounts that pay for
  less than half a part, whose weight rounds to zero: `UnitQuantity.ApiAcceptsDerivedQuantityIff`.
- Roster pages come from separate queries whose order leaves ties open. They list each product once
  exactly when no tie lies across a page boundary: `ProductComparison.PagesPartitionIff`.
- Expenses are tied to their ledger row by eight characters of the id, and one can lose its row to the
  deletion of another: `Expenses.DeletionSparesOthersIff`, `Expenses.CollidingExpenseLosesRow`.

## Model

| member | source | states |
|---|---|---|
| FinancialReports.TrialBalanceOverRuns | backend/src/modules/accounting/financial-reports.service.ts:26-57 | over every run from an empty ledger, for every branch filter and dates, the trial balance is off by exactly the journals' rounding gaps plus the single-sided postings; whole-cent journals drop out because no window splits a voucher |
| FinancialReports.WholeCentBooksBalance | backend/src/modules/accounting/financial-reports.service.ts:26-57 | from an empty ledger, after any run of whole-cent journals, locks, seedings, reviews and deletions, the trial balance of every branch and all dates is balanced |
| FinancialReports.TrialBalanceIsComplete | backend/src/modules/accounting/financial-reports.service.ts:31-55 | the per-account rows and the unmapped bucket count every row of the window once, so `balanced` holds exactly when the window nets to zero |
| FinancialReports.TrialBalanceFigures | backend/src/modules/accounting/financial-reports.service.ts:31-54 | each row of the trial balance is its account's debits and credits in the window, in chart order, and the unmapped bucket is what the window has beyond the mapped rows |
| FinancialReports.AccountSumsAreSums | backend/src/modules/accounting/financial-reports.repository.ts:62-93 | the LEFT JOIN with the filter in ON sums each account's rows, and lists an account without rows with zero |
| FinancialReports.BalanceSheetFigures | backend/src/modules/accounting/financial-reports.service.ts:63-104 | straight from ledger rows joined with the chart up to the date: total assets are debits less credits on Asset accounts; liabilities, retained earnings and equity are credits less debits on Liability, on Income and Expense, and on Equity, Income and Expense accounts |
| FinancialReports.BalanceSheetIdentity | backend/src/modules/accounting/financial-reports.service.ts:59-105 | assets less liabilities and equity, with income less expenses as retained earnings, equal debits less credits of the mapped rows to date; the sheet balances exactly when the mapped trial balance does |
| FinancialReports.SummaryAgrees | backend/src/modules/accounting/accounting.repository.ts:123-149 | the ledger summary and the trial balance without a window have the same totals, and the entry count counts each row of the branch once |
| FinancialReports.DayBooksAddUp | backend/src/modules/accounting/financial-reports.service.ts:107-137 | the day books of a window's days, each once, add up to its trial balance |
| FinancialReports.DayBookRows | backend/src/modules/accounting/financial-reports.service.ts:107-137 | a day book has exactly the rows of its day and branch |
| FinancialReports.JournalMovesAccounts | backend/src/modules/accounting/journal-vouchers.service.ts:99-114 | an accepted journal moves each account, in every window with its branch and date, by the rounded amounts of its own lines on either side, and in no other window |
| FinancialReports.PostMovesItsAccount | backend/src/modules/accounting/accounting.repository.ts:44-67 | an accepted posting moves the one account it is for, on its side by its amount in cents, in every window with its branch and date; nothing else moves |
| FinancialReports.AdjacentWindowsAdd | backend/src/modules/accounting/financial-reports.repository.ts:47-94 | adjacent windows add up account by account |
| BookTheorems.ClosedMonthIsFrozen | backend/src/modules/accounting/accounting.repository.ts:44-80 | from a lock to the next unlock of a month, any run of journals, postings and expenses leaves its rows as they were, less those deleted by reference, as long as no entry-date text that is stored in the month reads as another |
| BookTheorems.LockFreezesMonth | backend/src/modules/accounting/fiscal-periods.service.ts:28-47 | the same from the call that locks the month on, whatever was locked before |
| BookTheorems.LockClosesMonth | backend/src/modules/accounting/fiscal-periods.service.ts:28-47 | after locking a month an entry date is accepted exactly when it was before and reads as another month; the call is refused exactly for a closed month |
| BookTheorems.UnlockOpensMonth | backend/src/modules/accounting/fiscal-periods.service.ts:49-54 | after unlocking a month an entry date is accepted exactly when it was before or reads as that month |
| BookTheorems.LastLockDecides | backend/src/modules/accounting/fiscal-periods.service.ts:28-74 | after any run an entry date is accepted exactly when the last lock or unlock of its month was an unlock, or there was none and it was accepted before |
| BookTheorems.SelectionOnlyShrinks | backend/src/modules/accounting/accounting.repository.ts:64-80 | over a run that adds no row of a selection, the selected rows are the old ones less the deleted references, in order |
| BookTheorems.LedgerStep | backend/src/modules/accounting/accounting.repository.ts:64-80 | every service call is a deletion by reference followed by an insertion |
| BookTheorems.AssertOpenIsExact | backend/src/modules/accounting/fiscal-periods.service.ts:58-74 | with a coherent cache an entry date is accepted exactly when the month read out of its text is not in the lock table, which is the stored month for a text that reads right |
| BookTheorems.AssertOpenIsExactOverRuns | backend/src/modules/accounting/fiscal-periods.service.ts:28-78 | in every reachable state of one process with atomic calls a loaded cache equals the lock table, and an entry date is accepted exactly when the month it reads is not locked |
| BookTheorems.AddedRowsAreOpen | backend/src/modules/accounting/accounting.repository.ts:44-62 | rows are added only when the month read out of the entry date is open; if the text reads right, each added row is dated in a month open at that moment |
| BookTheorems.JournalsNetToTheirGaps | backend/src/modules/accounting/journal-vouchers.service.ts:84-117 | in every window the journal rows of a run net to exactly the rounding gaps of the accepted journals; no other call touches them |
| BookTheorems.WindowBalance | backend/src/modules/accounting/journal-vouchers.service.ts:84-117 | from an empty ledger, debits less credits of any window are the gaps plus the single-sided postings |
| BookTheorems.VoucherRoundingGap | backend/src/modules/accounting/journal-vouchers.service.ts:54-114 | for amounts of any precision the rows of a voucher of n lines that passes the check differ between the sides by the difference of their carries, at most n/2 cents, zero exactly when the carries agree; the rounded sum of debits is off the stored debits by at most half a cent a debit line |
| VoucherTotals.NewVoucherTotal | backend/src/modules/accounting/journal-vouchers.service.ts:84-114 | a call that adds a voucher adds rows of its branch, date, number and id, and its stored total is off their debits and off their credits by at most half a cent a row of that side, by nothing for whole-cent amounts |
| VoucherTotals.TotalsOverRuns | backend/src/modules/accounting/journal-vouchers.service.ts:84-114 | over every run with new voucher ids, the total of every stored voucher is off each side of the ledger rows that carry its id by at most half a cent a row, and equal to both if the journals are in whole cents |
| BookTheorems.NoGap | backend/src/modules/accounting/journal-vouchers.service.ts:54-73 | whole-cent amounts, or one line a side, leave no gap |
| Vouchers.AcceptedButUnbalanced | backend/src/modules/accounting/entities/journal-voucher.entity.ts:13-17 | in every coherent world with an open month and two accounts, a voucher of three lines is accepted by `create` and its stored rows net to minus one cent |
| Vouchers.JournalAcceptedIff | backend/src/modules/accounting/journal-vouchers.service.ts:39-117 | a journal is accepted exactly when its branch resolves, its text does not sort after today's, its rounded sides are equal and positive, its accounts exist and the month its text reads as is not locked; a refused one leaves the tables alone |
| Vouchers.RefusalNamesCause | backend/src/modules/accounting/journal-vouchers.service.ts:39-82 | the reported reason of a refusal holds of the journal, and a duplicate number is never the reason |
| Vouchers.JournalBranch | backend/src/modules/accounting/journal-vouchers.service.ts:148-167 | the branch of a journal is the one the actor may write for: an admin names it, a manager has one and may only repeat it |
| Vouchers.NotInTheFutureIff | backend/src/modules/accounting/journal-vouchers.service.ts:47-48 | the text comparison is the date comparison for dashed texts, and passes a basic text exactly when it is of an earlier year |
| Vouchers.MisreadTextEntersClosedMonth | backend/src/modules/accounting/journal-vouchers.service.ts:47-114 | every otherwise acceptable journal whose text is stored in a closed month but reads as a month that is not locked puts all its lines into the closed month |
| Vouchers.LastOf2025EntersClosedDecember | backend/src/modules/accounting/dto/create-journal-voucher.dto.ts:42-45 | with December 2025 locked, journals dated `20251231` and posted in a later year enter it |
| Vouchers.CreationRunsTheMachine | backend/src/modules/accounting/journal-vouchers.service.ts:84-146 | one atomic creation is a legal run of the numbering machine: select, save, insert, commit |
| Vouchers.RunsStayNumbered | backend/src/modules/accounting/journal-vouchers.service.ts:131-146 | over any run of the services each year read from entry dates stores the numbers 1..lastSeq, and the next one is never taken |
| Money.RoundedSum | backend/src/modules/accounting/journal-vouchers.service.ts:23 | rounding a sum is rounding its terms and adding the carry of what rounding left over |
| Money.CarryBound | backend/src/modules/accounting/journal-vouchers.service.ts:54-63 | the carry of n lines is at most n/2 cents, and zero for one line |
| Chokepoint.NothingGoesUnmapped | backend/src/modules/accounting/accounting.repository.ts:44-62 | once the chart is seeded no run adds to the unmapped bucket, and every account a row refers to exists |
| Chokepoint.PostingIsStored | backend/src/modules/accounting/accounting.repository.ts:44-67 | an accepted posting is stored as it came, in cents, under its date, on the one account it is for: by id, else by the caller's code, else by its reference |
| Chokepoint.PostAcceptedIff | backend/src/modules/accounting/accounting.repository.ts:44-67 | a posting is accepted exactly when the month its date reads as is not locked and the account it names by id, if any, exists; a refusal changes no table |
| Chokepoint.SeedsHaveTheirTypes | backend/src/modules/accounting/types/account-code.type.ts:28-56 | accounts that seeding adds to any chart have the type of the first digit of their number |
| Chokepoint.LookUpIsExact | backend/src/modules/accounting/accounts.repository.ts:41-52 | a lookup through the code cache finds the account of a code exactly when the chart has one |
| Chokepoint.SeedingIsIdempotent | backend/src/modules/accounting/accounts.repository.ts:28-39 | seeding completes the chart, touches no existing account, and does nothing the second time |
| Chokepoint.BackfillReproduces | backend/src/migrations/1779731300000-CreateAccountsAndLedgerDimension.ts:66-81 | clearing the account of a classified posting and running the backfill gives the row back |
| Chokepoint.BackfillOnlyFillsIn | backend/src/migrations/1779731300000-CreateAccountsAndLedgerDimension.ts:66-81 | a row that has an account stays, any other row changes its account at most, and gets one exactly when the chart has the code of its CASE |
| Ledger.ClassifierMatchesBackfill | backend/src/modules/accounting/lib/classify-ledger-account.ts:13-40 | runtime classification and the SQL CASE, with its three-valued LIKE, agree on every posting, missing references included |
| Ledger.ClassifiedByPrefix | backend/src/modules/accounting/lib/classify-ledger-account.ts:13-40 | a reference with a hyphen is classified by the whole text before it, whatever side and sale; references of no known kind are sales if they name one, otherwise income or expenses by side |
| Expenses.RowsMatchLiveExpenses | backend/src/modules/accounting/accounting.service.ts:104-164 | over every run in which live expenses differ in eight characters, each row under an expense reference is the posting of exactly one live expense with its branch and amount, and no expense has two |
| Expenses.DeletionTakesOwnRowOnly | backend/src/modules/accounting/accounting.service.ts:144-164 | deleting an expense removes at most one row, its own posting, and no journal line or other row |
| Expenses.DeletionSparesOthersIff | backend/src/modules/accounting/accounting.service.ts:161-162 | a deletion leaves every other live expense the row it has exactly when none of them shares the first eight characters of its id |
| Expenses.CollidingExpenseLosesRow | backend/src/modules/accounting/accounting.service.ts:125-162 | a run: two expenses whose ids share eight characters are created, the month being open; deleting the first leaves the second live without its row |
| Expenses.SharedReferenceIff | backend/src/modules/accounting/accounting.service.ts:135-136 | ids in lower case share a reference exactly when their first eight characters are the same |
| Expenses.DeletedIff | backend/src/modules/accounting/accounting.service.ts:144-164 | a deletion is done exactly for an existing expense and, by a manager, a pending one of the own branch; otherwise nothing changes |
| Expenses.ReviewDecides | backend/src/modules/accounting/accounting.service.ts:174-195 | a review gives a pending expense its verdict and changes nothing of one that has a verdict |
| Expenses.VerdictIsFinal | backend/src/modules/accounting/accounting.service.ts:174-195 | over every run that does not delete it, a reviewed expense keeps status, branch and amount |
| BranchScopes.ManagersStayInBranch | backend/src/modules/accounting/accounting.service.ts:104-164 | over every run of calls by managers of one branch, the rows of other branches are as they were, less those under a deleted reference |
| BranchScopes.ManagersSpareOtherExpenses | backend/src/modules/accounting/accounting.service.ts:104-164 | over such runs the expenses of other branches stay as they were |
| BranchScopes.ExpenseBranchIff | backend/src/modules/accounting/accounting.service.ts:108-126 | an expense is of the branch an admin names, or of the manager's own whatever is named |
| Expenses.RowsBelongToLiveExpenses | backend/src/modules/accounting/accounting.service.ts:104-164 | over every run with new ids, colliding or not, each row under an expense reference is the posting of some live expense |
| Expenses.ExpensePostedIff | backend/src/modules/accounting/accounting.service.ts:127-140 | creating an expense saves it pending, in cents, for its branch, and posts its row exactly when the current month is open |
| AccountingServices.FiscalPeriodsService.RefreshCacheIfStale | backend/src/modules/accounting/fiscal-periods.service.ts:69-74 | reloads the set from the table when it is at least 15 seconds old |
| AccountingServices.FiscalPeriodsService.AssertOpen | backend/src/modules/accounting/fiscal-periods.service.ts:58-67 | refreshes if stale, then decides by the key read out of the caller's text at characters 0-3 and 5-6 |
| AccountingServices.FiscalPeriodsService.Lock | backend/src/modules/accounting/fiscal-periods.service.ts:28-45 | refuses a locked month and changes nothing, otherwise adds it and busts the cache |
| AccountingServices.FiscalPeriodsService.Unlock | backend/src/modules/accounting/fiscal-periods.service.ts:47-52 | removes the month and busts the cache |
| AccountingServices.AccountsRepository.EnsureSeeded | backend/src/modules/accounting/accounts.repository.ts:28-39 | inserts each missing system account, ignores the others, and empties the code cache |
| AccountingServices.AccountsRepository.IdByCode | backend/src/modules/accounting/accounts.repository.ts:41-52 | answers from the cache, or reloads the whole chart on a miss |
| AccountingServices.AccountingRepository.StampAccount | backend/src/modules/accounting/accounting.repository.ts:44-62 | refuses a locked month; keeps an explicit account, else takes the caller's code or the classified one |
| AccountingServices.AccountingRepository.CreateLedgerEntry | backend/src/modules/accounting/accounting.repository.ts:64-76 | appends the stamped row, or refuses and leaves the tables alone |
| AccountingServices.AccountingRepository.DeleteLedgerByReference | backend/src/modules/accounting/accounting.repository.ts:78-80 | removes exactly the rows with the reference, keeping the order of the others |
| AccountingServices.JournalVouchersService.Create | backend/src/modules/accounting/journal-vouchers.service.ts:39-124 | the refusals in the order of the code, then all of counter, voucher and lines, or none of them |
| AccountingServices.JournalVouchersService.Transact | backend/src/modules/accounting/journal-vouchers.service.ts:84-117 | the transaction line by line: a line refused by the chokepoint rolls back everything before it, except the refreshed cache |
| AccountingServices.JournalVouchersService.NextVoucherNumber | backend/src/modules/accounting/journal-vouchers.service.ts:131-146 | increments the counter of the year and prints its number |
| AccountingServices.AccountingService.CreateExpense | backend/src/modules/accounting/accounting.service.ts:104-142 | saves the expense, then posts its debit row through the chokepoint; a refused posting leaves the expense |
| AccountingServices.AccountingService.DeleteExpense | backend/src/modules/accounting/accounting.service.ts:144-164 | the refusals of a manager, then the row by reference and the expense are removed |
| AccountingServices.AccountingService.ReviewExpense | backend/src/modules/accounting/accounting.service.ts:174-195 | only a pending expense gets a verdict, and nothing else changes |
| Calendar.KeyIsInjective | backend/src/modules/accounting/fiscal-periods.service.ts:62 | the unpadded `year-month` key determines the month |
| Calendar.KeyLookup | backend/src/modules/accounting/fiscal-periods.service.ts:58-62 | looking up the key sliced out of an entry-date text is looking up the month it reads; whatever is locked, the check refuses every locked stored month, and the answer is that of the stored month, exactly for the texts that read right |
| Calendar.DashedReadsRight | backend/src/modules/accounting/fiscal-periods.service.ts:55-60 | the slices of `YYYY-MM-DD` are the year and month of the date |
| Calendar.BasicReadsRightIff | backend/src/modules/accounting/fiscal-periods.service.ts:58-60 | the slices of `YYYYMMDD` read the last digit of the month and the first of the day, the right month exactly from 10 to 19 November |
| Calendar.YearDayReadsRightIff | backend/src/modules/accounting/fiscal-periods.service.ts:58-60 | the slices of `YYYY-DDD` read the right month exactly from 10 to 19 January |
| Calendar.IsoOrder | backend/src/modules/accounting/journal-vouchers.service.ts:47-48 | comparing ISO dates as text is comparing the dates |
| FiscalCache.StalenessBound | backend/src/modules/accounting/fiscal-periods.service.ts:58-78 | in every interleaved run each verdict is the true state of its month at some instant less than TTL plus read latency ago |
| FiscalCache.FifteenSeconds | backend/src/modules/accounting/fiscal-periods.service.ts:10-78 | without read latency every verdict is the true state of its month less than fifteen seconds ago |
| FiscalCache.RefreshStraddlingALock | backend/src/modules/accounting/fiscal-periods.service.ts:69-78 | for every month and moment, a run in which a refresh straddling a lock reinstalls the open set and a posting is accepted up to a TTL later |
| FiscalCache.OpenForFifteenSeconds | backend/src/modules/accounting/fiscal-periods.service.ts:10-78 | for any wait below fifteen seconds there is such a run after which the closed month is still accepted |
| FiscalCache.ExactIffAligned | backend/src/modules/accounting/fiscal-periods.service.ts:58-78 | in every reachable state, all verdicts of all continuations without lock or unlock are right exactly when a fresh cache equals the table and so does every read that can still be installed |
| FiscalCache.ExactIffQuiet | backend/src/modules/accounting/fiscal-periods.service.ts:28-78 | from a state in which all verdicts until the next table change are right, exactly the quiet steps lead to such a state: no table change while the cache is fresh, unless busted, or while a refresh can still install an earlier read |
| FiscalCache.QuietRunsAreExact | backend/src/modules/accounting/fiscal-periods.service.ts:58-78 | at the end of every quiet run from the start of a process each verdict is the state of the month right now |
| VoucherNumbering.NumberingIsGapFree | backend/src/modules/accounting/journal-vouchers.service.ts:84-146 | under every interleaving, rollbacks and first-of-year races included, each year's committed vouchers carry 1..lastSeq in commit order and no two printed numbers are equal |
| VoucherNumbering.LosersOfTheFirstYearRace | backend/src/migrations/1779731400000-CreateJournalVouchers.ts:35 | once one of the racers for a year's first row has committed, the others can never insert or commit |
| VoucherNumbering.PrintIsInjective | backend/src/modules/accounting/journal-vouchers.service.ts:145 | `JV-year-seq` determines year and sequence, past six digits too |
| VoucherNumbering.PrintsSixDigits | backend/src/modules/accounting/journal-vouchers.service.ts:145 | six digits up to 999999, all digits from then on |
| VoucherNumbering.PrintOrder | backend/src/modules/accounting/journal-vouchers.service.ts:145 | within a year, six-digit numbers sort as text in the order of their sequences |
| VoucherNumbering.CommitTakesNext | backend/src/modules/accounting/journal-vouchers.service.ts:131-146 | whatever is open beside it, a commit stores exactly the next number of its year |
| RefreshTokens.TokenFamilySafety | backend/src/modules/auth/refresh-token.service.ts:38-92 | over every run at most one unrevoked token a family, one user a family, chains without forks, every stored replacement present, in the same family and no earlier to expire |
| TokenHistory.TokensBelongToOpeners | backend/src/modules/auth/refresh-token.service.ts:38-84 | over every run each stored token has the user of the one `issue` call that opened its family, and expires a lifetime after the call that drew it |
| TokenHistory.RotationAnswersOwner | backend/src/modules/auth/refresh-token.service.ts:46-84 | at the end of every run `rotate` succeeds exactly for a stored unrevoked token less than a lifetime old, and answers with its new raw token and the user for whom the run opened the family |
| TokenHistory.IssueAnswersStored | backend/src/modules/auth/refresh-token.service.ts:38-40 | `issue` answers with a token that is stored active for its user |
| TokenHistory.RevocationIsStamped | backend/src/modules/auth/refresh-token.service.ts:52-74 | a token that a call revokes is stamped with the time of the call |
| TokenHistory.CleanUpSparesUsable | backend/src/modules/auth/refresh-token.repository.ts:62-69 | clean-up takes no token that could still rotate, and every one past its expiry |
| RefreshTokens.RevocationIsFinal | backend/src/modules/auth/refresh-token.repository.ts:44-59 | a revoked row is never changed again, only deleted, and never comes back |
| RefreshTokens.RotatesAtMostOnce | backend/src/modules/auth/refresh-token.service.ts:46-84 | a raw token that rotated once is refused ever after |
| RefreshTokens.DeadFamiliesStayDead | backend/src/modules/auth/refresh-token.service.ts:46-92 | a family without active token never has one again |
| RefreshTokens.CompromisedFamilyDies | backend/src/modules/auth/refresh-token.service.ts:57-64 | after a replay of a stored spent token, or a logout with an active one, no token of the family is ever active again |
| RefreshTokens.LogoutAndReplayLimits | backend/src/modules/auth/refresh-token.service.ts:86-92 | logout ends a family for good exactly when the presented token is active, a replay exactly when its row is still stored, or the family was dead anyway |
| RefreshTokens.LogoutWithOldToken | backend/src/modules/auth/refresh-token.service.ts:86-92 | issue, rotate, logout with the old token: the family is still active |
| RefreshTokens.ReplayAfterCleanup | backend/src/modules/auth/refresh-token.service.ts:46-64 | issue, rotate, clean up, replay: the family is still active |
| RefreshTokens.ChainsExpireInOrder | backend/src/modules/auth/refresh-token.service.ts:71-81 | along a chain of replacements of any length expiry never decreases, and family and user stay |
| RefreshTokens.HousekeepingTakesPrefixes | backend/src/modules/auth/refresh-token.repository.ts:62-69 | deleting expired rows takes prefixes of chains, and what stays leads where it led |
| RefreshTokens.RefreshTokenService.Issue | backend/src/modules/auth/refresh-token.service.ts:38-40 | adds one active row of a new family |
| RefreshTokens.RefreshTokenService.Rotate | backend/src/modules/auth/refresh-token.service.ts:46-84 | unknown, spent, expired and good tokens, each with its whole effect on the table |
| RefreshTokens.RefreshTokenService.Revoke | backend/src/modules/auth/refresh-token.service.ts:87-92 | revokes the family of a known active token, else nothing |
| RefreshTokens.RefreshTokenRepository.RevokeFamily | backend/src/modules/auth/refresh-token.repository.ts:57-59 | stamps exactly the unrevoked rows of the family |
| RefreshTokens.RefreshTokenRepository.DeleteExpired | backend/src/modules/auth/refresh-token.repository.ts:62-69 | keeps exactly the rows that expire now or later, and counts the others |
| ScanDetection.DetectorRefinesBatch | frontend/src/hooks/useScanDetection.ts:93-159 | over every legal trace the detector reports exactly the cleaned printable keys of the longest run before each Enter |
| ScanDetection.RunStartIsLongest | frontend/src/hooks/useScanDetection.ts:115-121 | the run is the longest one of plain keys with short gaps, the gap to Enter included |
| ScanDetection.TimerIsRedundantIff | frontend/src/hooks/useScanDetection.ts:155-158 | the timer changes no report for any configuration and trace exactly when the maximum gap is positive |
| ScanDetection.EmptySuffixErasesEveryScan | frontend/src/hooks/useScanDetection.ts:176-196 | cleaning loses every barcode exactly when the empty string is a suffix |
| ScanDetection.CleanUnframes | frontend/src/hooks/useScanDetection.ts:176-196 | a code between white space, with all prefixes before it and all suffixes behind it, none of these empty, is what cleaning leaves |
| ScanDetection.QuickScanIsReported | frontend/src/hooks/useScanDetection.ts:93-159 | a text typed into an idle detector without a gap above the maximum and closed by Enter is reported, cleaned, exactly when that is long enough |
| ScanDetection.PauseLosesKeys | frontend/src/hooks/useScanDetection.ts:114-123 | after a gap above the maximum the detector reports as if it had been idle |
| ScanDetection.CleanBarcode | frontend/src/hooks/useScanDetection.ts:176-196 | the two loops strip each prefix and each suffix once, in order, and trim |
| ScanDetection.ScanDetector.HandleKeyDown | frontend/src/hooks/useScanDetection.ts:93-159 | one key event: new buffer, time and timer, and the reported barcode |
| UnitQuantity.AmountRoundTripIff | frontend/src/lib/unit-quantity.ts:81-104 | amount to quantity to amount is exact for every whole-cent amount exactly when the price is at most 10 (fractional units) or 0.01 (countable) |
| UnitQuantity.QuantityRoundTripIff | frontend/src/lib/unit-quantity.ts:81-104 | quantity to amount to quantity is exact for every quantity on the grid exactly when the price is at least that |
| UnitQuantity.ThereAndBackExactIff | frontend/src/lib/unit-quantity.ts:52-55 | rounding after scaling up and down is exact for every whole number exactly when the scale does not shrink |
| UnitQuantity.AmountReconciles | frontend/src/lib/unit-quantity.ts:69-94 | the derived quantity costs the entered amount up to half of its smallest part |
| UnitQuantity.ApiAcceptsDerivedQuantityIff | backend/src/modules/customer-orders/customer-orders.service.ts:800-816 | the orders API, with the minima of its request and its tolerance, accepts an amount with the quantity derived from it exactly when the amount is at least a cent and pays for half of the smallest part |
| UnitQuantity.CentIsRefused | backend/src/modules/customer-orders/dto/create-customer-order.dto.ts:24-36 | 0.01 at a price of 1000 derives quantity 0, which is refused |
| UnitQuantity.ApiChargesCost | backend/src/modules/customer-orders/customer-orders.service.ts:795-816 | an amount is accepted only within the larger of a cent and a thousandth of the price, and half a cent of rounding, of what the quantity costs, and always if it is half a cent closer |
| UnitQuantity.ClampQtyIsNearestAllowed | frontend/src/lib/unit-quantity.ts:62-67 | a clamped quantity is on the grid, at least the minimum, nearest to the input, and stable |
| UnitQuantity.ClampQtyIsMonotone | frontend/src/lib/unit-quantity.ts:62-67 | clamping keeps the order of quantities |
| UnitQuantity.ClampInNumbers | frontend/src/lib/unit-quantity.ts:18-67 | thousandths from 0.05 on for fractional units, whole units from 1 on for others |
| UnitQuantity.StepStaysAllowed | frontend/src/lib/unit-quantity.ts:18-53 | one tap on an allowed quantity gives an allowed one; four taps make a kilogram or litre |
| UnitQuantity.FractionalIff | frontend/src/lib/unit-quantity.ts:34-43 | a unit sells in fractions unless it is empty or `unit`, in any letter case and between any white space |
| UnitQuantity.NoPriceNoQuantity | frontend/src/lib/unit-quantity.ts:81-94 | without a finite amount and a positive price the quantity is zero, which the API refuses |
| UnitMigration.MigrationOutcome | backend/src/migrations/1779700000000-ProductUnitBarcodesAndBaseUnits.ts:21-108 | for any starting tables: no retired unit names or base units, a base row for every product, every row flagged and priced by its product, and no (product, name) duplicate introduced |
| UnitMigration.BaseUnitsKeepDimension | backend/src/migrations/1779700000000-ProductUnitBarcodesAndBaseUnits.ts:34-108 | in any spelling, mass ends in kg, volume in l, counted units in unit and other units under their lower-cased name; products share a base unit afterwards exactly when theirs measured the same; each has a base row of that name at its price |
| UnitMigration.BarcodesSurvive | backend/src/migrations/1779700000000-ProductUnitBarcodesAndBaseUnits.ts:61-84 | a unit row with a barcode is in the migrated table as often as before, unless its name is one of the six retired ones |
| UnitMigration.RowsComeFrom | backend/src/migrations/1779700000000-ProductUnitBarcodesAndBaseUnits.ts:61-108 | every migrated row is a kept one, with its conversion unless it is a base row, or the new base row of a product |
| UnitMigration.ConvertedPriceIsNearest | backend/src/migrations/1779700000000-ProductUnitBarcodesAndBaseUnits.ts:99-102 | a converted price is exact to the nearest cent, halves away from zero |
| UnitMigration.MigrationIsIdempotent | backend/src/migrations/1779700000000-ProductUnitBarcodesAndBaseUnits.ts:21-108 | running the data statements twice is running them once |
| UnitMigration.Tables.Up | backend/src/migrations/1779700000000-ProductUnitBarcodesAndBaseUnits.ts:8-109 | the statements in order, each updating its table row by row |
| ProductComparison.ComparisonConserves | backend/src/modules/branch-analytics/products-roster.util.ts:30-59 | a row has its product and name, every selected branch once, in order, with its true sums, and its totals are the sums of its cells |
| ProductComparison.PagesConserve | backend/src/modules/branch-analytics/branch-analytics-products.repository.ts:153-181 | the pages of one roster are the roster, and their totals add up to all matching sales |
| ProductComparison.PagesPartitionIff | backend/src/modules/branch-analytics/branch-analytics-products.repository.ts:153-181 | n pages that reach the end, each from its own query with its own order of ties, list every matching product exactly once, whatever the orders, exactly when no two products tie across a page boundary |
| ProductComparison.OnceListedConserves | backend/src/modules/branch-analytics/branch-analytics-products.repository.ts:153-181 | pages that list each product once total all matching sales |
| ProductComparison.RosterIsUniqueIff | backend/src/modules/branch-analytics/branch-analytics-products.repository.ts:170-173 | ORDER BY determines the whole roster exactly when no two matching products tie on sort value and name |
| ProductComparison.RosterRanksSales | backend/src/modules/branch-analytics/branch-analytics-products.repository.ts:109-181 | the roster lists exactly the products with a line of a real sale, neither sale nor line voided, in a selected branch and the window, best seller first by the chosen figure and then by name |
| ProductComparison.OnlyCountedLinesMatter | backend/src/modules/branch-analytics/branch-analytics-products.repository.ts:109-125 | a line that does not count changes no entry |
| ProductComparison.CellCounts | backend/src/modules/branch-analytics/branch-analytics-products.repository.ts:183-203 | a cell is the sum of the counting lines of its product and branch |
| ProductComparison.TotalIsRosterLength | backend/src/modules/branch-analytics/branch-analytics-products.repository.ts:140-151 | the total of the response is the number of products that the pages list |
| ProductComparison.KeyLookupIsPairLookup | backend/src/modules/branch-analytics/products-roster.util.ts:35-43 | for product ids without colons the string key finds the row of the pair, or there is none |
| ProductComparison.ColonsCollide | backend/src/modules/branch-analytics/products-roster.util.ts:37 | with colons one cell can show another's figures |
| ProductComparison.AssembleProductRows | backend/src/modules/branch-analytics/products-roster.util.ts:30-59 | the index loop and the nested maps give each roster entry its cells by key |
| ProductComparison.ManagerBranchComesFirst | backend/src/modules/branch-analytics/branch-analytics.service.ts:136-148 | a manager's comparison is accepted exactly when all its branches exist, covers just the own and the requested ones, and starts with the own branch |
| ProductComparison.AdminBranches | backend/src/modules/branch-analytics/branch-analytics.service.ts:120-148 | an admin's comparison is accepted exactly when some branch is named and all exist, in the order named |
| ProductComparison.ResolveBranches | backend/src/modules/branch-analytics/branch-analytics.service.ts:120-148 | an accepted list of branches is not empty, without duplicates, and exists |
| PasswordGenerator.ShuffleIsBijective | backend/src/common/utils/random-password-generator.ts:65-70 | every arrangement of distinct items comes from exactly one vector of draws, and only arrangements do |
| PasswordGenerator.PasswordIsStrong | backend/src/common/utils/random-password-generator.ts:48-73 | max(4, length) characters of the alphabet, at least one of each kind, after the shuffle |
| PasswordGenerator.TemporaryPassword | backend/src/common/utils/random-password-generator.ts:6-73 | the password has max(4, length) characters, among them an upper-case and a lower-case letter, a digit and a symbol, and no easily misread one |
| PasswordGenerator.PasswordsAreStrongTexts | backend/src/common/utils/random-password-generator.ts:48-73 | the passwords that can come out are exactly the texts of their length over the four alphabets with a character of each |
| PasswordGenerator.ShuffleInPlace | backend/src/common/utils/random-password-generator.ts:66-70 | the in-place loop of swaps computes the shuffle of its draws |
| PasswordGenerator.RandomPassword | backend/src/common/utils/random-password-generator.ts:48-73 | one character of each kind, a random fill, then the shuffle, drawing in that order |

## Left out

- Stock transfers, shipments, POS checkout, credit accounts, loyalty, purchases, payroll: their ledger postings appear only as direct postings.
- IEEE floating point: amounts are exact reals and stored cents; JavaScript's own representation errors are not modelled.
- `numeric(12,2)` overflow, `varchar` length limits and serialization failures of the database.
- Foreign keys other than ledger row to account, and every cascade.
- Month lengths: a date is a year below 10000, a month 1-12 and a day 1-31.
- Entry-date texts that the database cannot read, or without digits where year and month are sliced: week dates, years or months alone, signed years. How the database reads a text is a parameter; what is stored for `YYYY-MM-DD`, `YYYYMMDD` and `YYYY-DDD` is the date they write.
- Reference, branch and description texts other than their role as keys; descriptions, memos, names, user agents, addresses and creation times.
- Ordering of report rows by code and of day-book rows by creation time.
- Account entities without a system code are part of the chart but no service modelled here creates them.
- The clock before 15 seconds past 1970, where the busted cache mark 0 would read as fresh.
- Interleavings inside a single refresh-token call, and a clock that goes back between token calls.
- JWT signing, OTP flows, e-mail, sockets, caching layers, routes, guards, React components and pagination helpers other than the offset.
- The unique barcode index, the DDL statements and the timestamps of the unit migration.
- `ILIKE` search and the database collation: a search is the set of products it matches, names compare by code unit.
- Lower and upper casing beyond the ASCII letters.
- `getProfitLoss`, `listLedger`, `listExpenses`, branch comparison other than products: sums and filters with nothing to add.
- Distribution of `crypto.randomInt`: the shuffle is shown fair for equally likely draws.
