# Personal Finance Pro: balance reconciliation, in Dafny

Personal Finance Pro keeps one balance record (the "onboarding" record). It
holds bank, savings, cash and credit-card balances, a currency symbol and a
card flag. It also keeps a table of transaction rows. Each row is an Expense,
an Income or a Transfer. It has a `from` and a `to` index, an amount and a
timestamp. A row dated in the future is stored as *scheduled*.

Five kinds of code change the balance record:

- creating a transaction
- editing a transaction
- deleting a transaction, from the home screen or the history screen
- the start-up sweep that settles scheduled rows whose time has come
- onboarding, which stores the opening balances

This project models all five, the store queries, and the lists and totals the
screens show.

The central invariant is `Ledger.Reconciled`. It says that each account
balance equals its opening balance plus the effect of every completed row,
each counted once. `Repository.TransactionStore.Consistent` holds that
invariant for the store. The store model keeps the balance record, the rows,
the next key, the log of writes in order, and the opening balance as a ghost
field.

Proved properties:

- Create, edit and the sweep preserve the invariant.
- Reversing a row's effect undoes applying it.
- The sweep's own copy of the sign rule is the create path's.
- A second sweep finds nothing to do.
- The balance record agrees with the total-balance query.
- The validation rules decide exactly which inputs are saved, on the create,
  edit and onboarding paths.

The delete handlers do not preserve the invariant (see "## Findings"). The
model keeps both the handler as written and a corrected one.

Modules, one per file:

- **`TransactionModel`** (`transaction_model.dfy`): the two records. The
  transaction type becomes a datatype with an `Other` case for strings the
  app does not write.
- **`BalanceImpact`** (`balance_impact.dfy`): the per-account update and the
  sign rule.
- **`TransactionDao`** (`transaction_dao.dfy`): the store queries and row
  writes, as functions over the table.
- **`Ledger`** (`ledger.dfy`): the reconciliation invariant and how row writes
  change it.
- **`Repository`** (`repository.dfy`): the store as a class whose methods
  update it.
- **`AddTransaction`** (`add_transaction.dfy`): validation, create and edit.
- **`HomePageViewModel`** (`home_page_view_model.dfy`): the sweep.
- **`TransactionLists`**, **`HomePage`** and **`TransactionHistory`**: the
  delete handler, the card total, the sign shown for an amount, and the
  upcoming and completed lists.
- **`Onboarding`** (`onboarding.dfy`): the onboarding screen's state holder.

## Model

| member | source | states |
|---|---|---|
| TransactionModel.TypeNameRoundTrip | app/src/main/java/com/ramphal/personalfinancepro/data/TransactionModel.kt:11 | the type datatype and the stored type string determine each other: reading back a written type gives it again, and writing back a read string gives the same string |
| BalanceImpact.UpdateBalanceForAccount | app/src/main/java/com/ramphal/personalfinancepro/ui/add/AddTransactionView.kt:1011-1023 | index 0/1/2/3 adds the amount to bank/savings/cash/card and to nothing else; key, currency and card flag unchanged; any other index (e.g. -1) returns the record unchanged |
| BalanceImpact.ApplyBalanceImpact | app/src/main/java/com/ramphal/personalfinancepro/ui/add/AddTransactionView.kt:1180-1204 | each account moves by exactly the reference sign rule `Impact` (Expense −amount on `from`, Income +amount on `to`, Transfer both, other types nothing); metadata unchanged |
| BalanceImpact.ReverseBalanceImpact | app/src/main/java/com/ramphal/personalfinancepro/ui/add/AddTransactionView.kt:1158-1178 | each account moves by minus the row's `Impact`; unknown types are ignored; metadata unchanged |
| BalanceImpact.SignRule | app/src/main/java/com/ramphal/personalfinancepro/ui/add/AddTransactionView.kt:1188-1203 | the sign rule per type on the named accounts: Expense lowers `from`, Income raises `to`, Transfer between two accounts does both, other types leave the record as it is, and accounts that are neither end never move |
| BalanceImpact.ReverseUndoesApply | app/src/main/java/com/ramphal/personalfinancepro/ui/add/AddTransactionView.kt:1158-1204 | reversing a row after applying it gives back the original record, for every type (exact arithmetic) |
| BalanceImpact.ApplyUndoesReverse | app/src/main/java/com/ramphal/personalfinancepro/ui/add/AddTransactionView.kt:1158-1204 | applying a row after reversing it gives back the original record |
| BalanceImpact.TransferKeepsTotal | app/src/main/java/com/ramphal/personalfinancepro/ui/add/AddTransactionView.kt:1197-1201 | a transfer between two accounts leaves the sum of the four balances unchanged |
| TransactionDao.FindById | app/src/main/java/com/ramphal/personalfinancepro/data/TransactionDao.kt:37-38 | returns a row of the table with the key, and nothing exactly when no row has it |
| TransactionDao.ReplaceById | app/src/main/java/com/ramphal/personalfinancepro/data/TransactionDao.kt:43-44 | same length; the row with the key becomes the new row, every other row stays in place |
| TransactionDao.RemoveById | app/src/main/java/com/ramphal/personalfinancepro/data/TransactionDao.kt:20-21 | exactly the rows without the key remain, in table order |
| TransactionDao.RemoveByIdCounts | app/src/main/java/com/ramphal/personalfinancepro/data/TransactionDao.kt:20-21 | every copy of a row with the key is dropped and every copy of any other row is kept |
| TransactionDao.RemoveKeepsIds | app/src/main/java/com/ramphal/personalfinancepro/data/TransactionDao.kt:20-21 | deleting by key keeps primary keys unique |
| TransactionDao.ReplaceKeepsIds | app/src/main/java/com/ramphal/personalfinancepro/data/TransactionDao.kt:43-44 | an update keeps every row's key and so keeps keys unique |
| TransactionDao.DueScheduled | app/src/main/java/com/ramphal/personalfinancepro/data/TransactionDao.kt:26-27 | holds exactly the rows that are scheduled and dated no later than now, in table order |
| TransactionDao.DueScheduledCounts | app/src/main/java/com/ramphal/personalfinancepro/data/TransactionDao.kt:26-27 | each due row is returned as often as the table holds it, and no other row is returned |
| TransactionDao.SumZeroIffNoMatch | app/src/main/java/com/ramphal/personalfinancepro/data/TransactionDao.kt:104-143 | with positive amounts a filtered sum is never negative, and it is 0 (the `IFNULL` default) exactly when no row matches |
| TransactionDao.CategorySpendingSplits | app/src/main/java/com/ramphal/personalfinancepro/data/TransactionDao.kt:104-116 | category spending over a closed range is the sum over its two halves, so each Expense row of the category is counted once |
| TransactionDao.CategoryIncomeSplits | app/src/main/java/com/ramphal/personalfinancepro/data/TransactionDao.kt:118-130 | the same for category income (Income rows keyed on `from`) |
| TransactionDao.CategorySpendingZero | app/src/main/java/com/ramphal/personalfinancepro/data/TransactionDao.kt:104-116 | category spending is 0 iff no Expense row of that category (`to`) lies in the range |
| TransactionDao.CategoryIncomeZero | app/src/main/java/com/ramphal/personalfinancepro/data/TransactionDao.kt:118-130 | category income is 0 iff no Income row of that category (`from`) lies in the range |
| TransactionDao.CategorySpendingInDateRange | app/src/main/java/com/ramphal/personalfinancepro/data/TransactionDao.kt:104-116 | definition of the category-spending query; `CategorySpendingSplits`, `CategorySpendingZero` and `SumZeroIffNoMatch` state its properties |
| TransactionDao.CategoryIncomeInDateRange | app/src/main/java/com/ramphal/personalfinancepro/data/TransactionDao.kt:118-130 | definition of the category-income query; `CategoryIncomeSplits`, `CategoryIncomeZero` and `SumZeroIffNoMatch` state its properties |
| TransactionDao.OverallInDateRange | app/src/main/java/com/ramphal/personalfinancepro/data/TransactionDao.kt:132-143 | definition of the overall per-type sum; `OverallNetIsTotalBalance` relates it to the total-balance query |
| TransactionDao.TotalBalance | app/src/main/java/com/ramphal/personalfinancepro/data/TransactionDao.kt:49-60 | definition of the total-balance query (completed Income minus completed Expense); `Ledger.NetMatchesTotalBalanceQuery`, `Ledger.ReconciledMatchesTotalBalanceQuery` and `OverallNetIsTotalBalance` tie it to the account balances |
| TransactionDao.OverallNetIsTotalBalance | app/src/main/java/com/ramphal/personalfinancepro/data/TransactionDao.kt:132-143 | overall "Income" minus overall "Expense" over a range that starts before every row equals the total-balance query at the range's end (Transfers count 0 in both) |
| TransactionDao.NothingDueAfterSettling | app/src/main/java/com/ramphal/personalfinancepro/data/TransactionDao.kt:26-27 | after every due row is marked completed, the due query at the same time returns nothing |
| TransactionDao.MarkSettled | app/src/main/java/com/ramphal/personalfinancepro/ui/home/HomePageViewModel.kt:86-87 | same length; each due row gets `isScheduled = false` with all other fields kept; other rows unchanged |
| Ledger.NetAppend | app/src/main/java/com/ramphal/personalfinancepro/data/TransactionDao.kt:14-15 | inserting a row changes each account's net by exactly that row's contribution |
| Ledger.NetReplace | app/src/main/java/com/ramphal/personalfinancepro/data/TransactionDao.kt:43-44 | updating a row by key swaps its old contribution for the new one |
| Ledger.NetRemove | app/src/main/java/com/ramphal/personalfinancepro/data/TransactionDao.kt:20-21 | deleting a row by key removes exactly its contribution |
| Ledger.NetSettle | app/src/main/java/com/ramphal/personalfinancepro/ui/home/HomePageViewModel.kt:57-88 | marking the due rows completed adds exactly their combined effect to each account's net |
| Ledger.Opening | app/src/main/java/com/ramphal/personalfinancepro/data/TransactionModel.kt:20-30 | the ghost opening balance the reconciliation invariant is stated against: for any record and rows it is the record minus each account's net, so the pair reconciles |
| Ledger.RowNetIsSignedAmount | app/src/main/java/com/ramphal/personalfinancepro/data/TransactionDao.kt:49-60 | over the four accounts a completed row moves the value the total-balance query gives it (+Income, −Expense, 0 Transfer) |
| Ledger.NetMatchesTotalBalanceQuery | app/src/main/java/com/ramphal/personalfinancepro/data/TransactionDao.kt:49-60 | when exactly the rows dated after now are scheduled, the summed account nets equal the total-balance query |
| Ledger.ReconciledMatchesTotalBalanceQuery | app/src/main/java/com/ramphal/personalfinancepro/data/TransactionDao.kt:49-60 | for a reconciled record, the four accounts' change since the opening balance equals the total-balance query |
| Repository.TransactionStore.ScreenBalance | app/src/main/java/com/ramphal/personalfinancepro/ui/home/HomePageView.kt:98-108 | definition, no property claimed for its own contract: the record the screens read, i.e. the stored record or the all-zero initial value of the collected `Flow`; `ConfirmDelete`, `AddTransaction.SaveNewTransaction` and `AddTransaction.UpdateTransaction` state their balance writes against it |
| Repository.TransactionStore.AddOnboardingData | app/src/main/java/com/ramphal/personalfinancepro/data/TransactionDao.kt:17-18 | insert with IGNORE: the record is stored only when none exists; rows untouched; the write is logged; consistency kept |
| Repository.TransactionStore.UpdateOnboardingData | app/src/main/java/com/ramphal/personalfinancepro/data/TransactionDao.kt:46-47 | update by key: replaces the record when its key matches, otherwise changes nothing; the write is logged |
| Repository.TransactionStore.AddTransaction | app/src/main/java/com/ramphal/personalfinancepro/data/TransactionDao.kt:14-15 | the row is appended under a fresh key, which is returned; keys stay unique |
| Repository.TransactionStore.UpdateTransaction | app/src/main/java/com/ramphal/personalfinancepro/data/TransactionDao.kt:43-44 | the table becomes `ReplaceById` of the old table; keys stay unique |
| Repository.TransactionStore.DeleteTransaction | app/src/main/java/com/ramphal/personalfinancepro/data/TransactionDao.kt:20-21 | the table becomes `RemoveById` of the old table; keys stay unique |
| AddTransaction.SegmentRoundTrip | app/src/main/java/com/ramphal/personalfinancepro/ui/add/AddTransactionView.kt:1059-1063 | segment→type→segment is the identity on 0..2 and type→segment→type the identity on the three written types; any other index selects Transfer and an unknown type opens as Transfer |
| AddTransaction.SegmentToType | app/src/main/java/com/ramphal/personalfinancepro/ui/add/AddTransactionView.kt:1059-1063 | definition: segment 0 Expense, 1 Income, any other Transfer; `SegmentRoundTrip` states that it inverts `TypeToSegment` |
| AddTransaction.TypeToSegment | app/src/main/java/com/ramphal/personalfinancepro/ui/add/AddTransactionView.kt:180 | definition: the segment an edited row opens on; `SegmentRoundTrip` states that it inverts `SegmentToType` |
| AddTransaction.DisallowedPairUnreachable | app/src/main/java/com/ramphal/personalfinancepro/ui/add/AddTransactionView.kt:1073-1082 | the disallowed Expense pairs name account indices 9 and 10, so no Expense whose `from` is one of the four accounts can hit them |
| AddTransaction.AmountRejection | app/src/main/java/com/ramphal/personalfinancepro/ui/add/AddTransactionView.kt:1043-1051 | the amount passes iff it is non-empty and parses to a number > 0; an empty amount is reported as such first |
| AddTransaction.CreateRejection | app/src/main/java/com/ramphal/personalfinancepro/ui/add/AddTransactionView.kt:1221-1341 | create accepts iff the amount passes and Expense has a category and no disallowed pair, Income has a category, Transfer has distinct ends |
| AddTransaction.EditRejection | app/src/main/java/com/ramphal/personalfinancepro/ui/add/AddTransactionView.kt:1043-1102 | edit reports an empty amount first and a missing row once the amount passes |
| AddTransaction.EditStricterThanCreate | app/src/main/java/com/ramphal/personalfinancepro/ui/add/AddTransactionView.kt:1066-1102 | with the row found, edit accepts exactly what create accepts except a Transfer with an unselected end |
| AddTransaction.Trim | app/src/main/java/com/ramphal/personalfinancepro/ui/add/AddTransactionView.kt:1139 | the stored note is the input with a run of leading and a run of trailing whitespace cut off, i.e. a slice `s[i..j]` with only whitespace outside it; it starts and ends with no whitespace, and is the input itself when it holds none |
| AddTransaction.TrimExample | app/src/main/java/com/ramphal/personalfinancepro/ui/add/AddTransactionView.kt:1139 | " a b " is stored as "a b": inner whitespace is kept |
| AddTransaction.NewRow | app/src/main/java/com/ramphal/personalfinancepro/ui/add/AddTransactionView.kt:1228-1341 | definition of the row a save writes (type from the segment, trimmed note, scheduled iff dated after now); `SaveNewTransaction` and `UpdateTransaction` state the writes against it |
| AddTransaction.InsertPreservesReconciled | app/src/main/java/com/ramphal/personalfinancepro/ui/add/AddTransactionView.kt:1240-1282 | inserting a row, with its effect applied exactly when it is completed, keeps the record reconciled |
| AddTransaction.SaveNewTransaction | app/src/main/java/com/ramphal/personalfinancepro/ui/add/AddTransactionView.kt:1206-1404 | a rejected input writes nothing; a future date inserts one scheduled row and no balance; otherwise one balance write with the sign-rule effect, then the completed row; consistency kept |
| AddTransaction.EditedBalance | app/src/main/java/com/ramphal/personalfinancepro/ui/add/AddTransactionView.kt:1105-1122 | each account loses the old row's contribution (only if it was completed) and gains the new one's (only if it is completed); metadata unchanged |
| AddTransaction.UnchangedEditKeepsBalance | app/src/main/java/com/ramphal/personalfinancepro/ui/add/AddTransactionView.kt:1108-1122 | re-saving a completed row with the same type, ends and amount and a date not in the future leaves the balance unchanged |
| AddTransaction.ScheduledEditKeepsBalance | app/src/main/java/com/ramphal/personalfinancepro/ui/add/AddTransactionView.kt:1124-1129 | a scheduled row that stays scheduled causes no balance write and no change |
| AddTransaction.ReplacePreservesReconciled | app/src/main/java/com/ramphal/personalfinancepro/ui/add/AddTransactionView.kt:1104-1144 | replacing the row under its key with the balance rewritten by `EditedBalance` keeps the record reconciled |
| AddTransaction.EditKeepsReconciled | app/src/main/java/com/ramphal/personalfinancepro/ui/add/AddTransactionView.kt:1124-1144 | whether or not the edit writes the balance, the stored record stays reconciled with the edited table |
| AddTransaction.EditedRecord | app/src/main/java/com/ramphal/personalfinancepro/ui/add/AddTransactionView.kt:1104-1144 | definition of the stored record after an edit; `EditKeepsReconciled` proves it stays reconciled with the edited table |
| AddTransaction.EditWrites | app/src/main/java/com/ramphal/personalfinancepro/ui/add/AddTransactionView.kt:1104-1144 | definition of an edit's writes (balance first, only when touched, then the row); `SaveEdit` states that the store logs exactly these |
| AddTransaction.RebalanceForEdit | app/src/main/java/com/ramphal/personalfinancepro/ui/add/AddTransactionView.kt:1105-1122 | the step-by-step reverse-then-apply computes `EditedBalance` |
| AddTransaction.WriteEditedBalance | app/src/main/java/com/ramphal/personalfinancepro/ui/add/AddTransactionView.kt:1124-1129 | the balance is written iff the old row was completed or the new one is |
| AddTransaction.SaveEdit | app/src/main/java/com/ramphal/personalfinancepro/ui/add/AddTransactionView.kt:1104-1144 | the balance write (if any) comes first and the row write second; the row keeps its key; consistency kept |
| AddTransaction.UpdateTransaction | app/src/main/java/com/ramphal/personalfinancepro/ui/add/AddTransactionView.kt:1025-1156 | rejection in `EditRejection` order with no write; otherwise the row is saved under its key with `isScheduled` = date after now and the balance goes through `EditedBalance`; consistency kept |
| HomePageViewModel.SettleAllFields | app/src/main/java/com/ramphal/personalfinancepro/ui/home/HomePageViewModel.kt:56-88 | folding the due rows moves each account by their combined effect and leaves the metadata alone |
| HomePageViewModel.SettleWrites | app/src/main/java/com/ramphal/personalfinancepro/ui/home/HomePageViewModel.kt:86-87 | definition of the sweep's row writes (one update per due row, in query order, with `isScheduled = false`); what they mean is stated by `SettleWritesSettleTable` |
| HomePageViewModel.ReplaySettleWrites | app/src/main/java/com/ramphal/personalfinancepro/ui/home/HomePageViewModel.kt:57-88 | replaying the sweep's row writes against any table is the same as updating the due rows one by one by key |
| HomePageViewModel.SettleWritesSettleTable | app/src/main/java/com/ramphal/personalfinancepro/ui/home/HomePageViewModel.kt:49-88 | on a table with unique keys, replaying the sweep's logged row writes gives exactly the table with every due row completed and every other row unchanged |
| HomePageViewModel.SettleAll | app/src/main/java/com/ramphal/personalfinancepro/ui/home/HomePageViewModel.kt:57-85 | definition: the balance after the loop folds the due rows' effects in query order; `SettleAllFields` states its effect on each account |
| HomePageViewModel.SweepPreservesReconciled | app/src/main/java/com/ramphal/personalfinancepro/ui/home/HomePageViewModel.kt:46-98 | settling the due rows and folding their effects into the record keeps it reconciled |
| HomePageViewModel.SweepIdempotent | app/src/main/java/com/ramphal/personalfinancepro/ui/home/HomePageViewModel.kt:49-51 | a second sweep at the same time finds nothing due and leaves the table as it is |
| HomePageViewModel.SettleRowsIsMarkSettled | app/src/main/java/com/ramphal/personalfinancepro/ui/home/HomePageViewModel.kt:57-88 | updating the due rows one by one by key gives exactly the table with every due row completed |
| HomePageViewModel.SettleRow | app/src/main/java/com/ramphal/personalfinancepro/ui/home/HomePageViewModel.kt:58-85 | the sweep's own copy of the sign rule equals `ApplyBalanceImpact` (unknown types move nothing) |
| HomePageViewModel.SettleDueRows | app/src/main/java/com/ramphal/personalfinancepro/ui/home/HomePageViewModel.kt:57-88 | the loop leaves the balance fold of all due rows and the table with each due row completed, with one row write per row |
| HomePageViewModel.ProcessDueScheduledTransactions | app/src/main/java/com/ramphal/personalfinancepro/ui/home/HomePageViewModel.kt:46-98 | nothing is written if nothing is due or no record exists; otherwise every due row is completed and the record is written once, last, as the fold of all their effects; consistency kept |
| TransactionLists.Upcoming | app/src/main/java/com/ramphal/personalfinancepro/ui/home/HomePageView.kt:118-120 | holds exactly the rows dated after now, each as often as the input holds it |
| TransactionLists.NotUpcoming | app/src/main/java/com/ramphal/personalfinancepro/ui/home/HomePageView.kt:125-127 | holds exactly the rows not dated after now, each as often as the input holds it |
| TransactionLists.PartitionIsSplit | app/src/main/java/com/ramphal/personalfinancepro/ui/history/TransactionHistoryView.kt:70-72 | the two halves together hold every row as often as it occurs, and no row is in both |
| TransactionLists.SortAsc | app/src/main/java/com/ramphal/personalfinancepro/ui/history/TransactionHistoryView.kt:73 | oldest first, a permutation of the input, and stable: the rows with any one timestamp keep their input order |
| TransactionLists.SortDesc | app/src/main/java/com/ramphal/personalfinancepro/ui/history/TransactionHistoryView.kt:74 | newest first, a permutation of the input, and stable: the rows with any one timestamp keep their input order |
| TransactionLists.SortKeepsRows | app/src/main/java/com/ramphal/personalfinancepro/ui/history/TransactionHistoryView.kt:73-74 | a row is in the sorted list iff it is in the input |
| TransactionLists.InsertAscKeepsTies | app/src/main/java/com/ramphal/personalfinancepro/ui/history/TransactionHistoryView.kt:73 | inserting a row ahead of every later-or-equal row keeps the order among rows of each timestamp, with the new row first |
| TransactionLists.InsertDescKeepsTies | app/src/main/java/com/ramphal/personalfinancepro/ui/history/TransactionHistoryView.kt:74 | the same for the newest-first insertion |
| TransactionLists.SortKeepsTiedOrder | app/src/main/java/com/ramphal/personalfinancepro/ui/history/TransactionHistoryView.kt:73-74 | two distinct rows with the same timestamp stay in input order under both sorts |
| HomePage.ConfirmDelete | app/src/main/java/com/ramphal/personalfinancepro/ui/home/HomePageView.kt:170-215 | writes the shown balance with the row reversed (Expense back to `from`, Income off `to`, anything else both ways), whether or not the row is scheduled, then deletes the row; consistency kept only for a completed row of a known type; the history screen's handler (TransactionHistoryView.kt:129-174) is the same code |
| HomePage.DeleteDrift | app/src/main/java/com/ramphal/personalfinancepro/ui/home/HomePageView.kt:170-215 | after a delete each account is off from the reconciled value by the row's contribution minus what the handler reversed |
| HomePage.DeleteScheduledExpenseDrifts | app/src/main/java/com/ramphal/personalfinancepro/ui/home/HomePageView.kt:173-182 | deleting a scheduled Expense of 10 raises the bank balance by 10 and breaks reconciliation |
| HomePage.DeleteUnknownTypeDrifts | app/src/main/java/com/ramphal/personalfinancepro/ui/home/HomePageView.kt:195-209 | deleting a completed row of an unknown type moves 10 between accounts although the row never moved anything |
| HomePage.SettledDeleteReversal | app/src/main/java/com/ramphal/personalfinancepro/ui/home/HomePageView.kt:170-215 | each account loses exactly the row's contribution (nothing for a scheduled row); metadata unchanged |
| HomePage.DeleteAgreesWhenSettled | app/src/main/java/com/ramphal/personalfinancepro/ui/home/HomePageView.kt:170-215 | for a completed row of a known type the handler's reversal is the corrected one |
| HomePage.DeletePreservesReconciled | app/src/main/java/com/ramphal/personalfinancepro/ui/home/HomePageView.kt:170-215 | deleting with the corrected reversal keeps the record reconciled, and so does the handler's reversal on a completed row of a known type |
| HomePage.ConfirmDeleteSettled | app/src/main/java/com/ramphal/personalfinancepro/ui/home/HomePageView.kt:170-215 | the corrected handler keeps the store consistent for every row: it reverses and writes the balance only for a stored completed row, and always deletes |
| HomePage.CardTotalTracksQuery | app/src/main/java/com/ramphal/personalfinancepro/ui/home/HomePageView.kt:402-407 | the card total (bank + cash + savings, plus card only with a card) changes since onboarding by the total-balance query, less the card account's movement when no card is shown |
| HomePage.AmountSign | app/src/main/java/com/ramphal/personalfinancepro/ui/home/HomePageView.kt:1029-1049 | "-" iff the amount is negative, "+" otherwise; the magnitude is non-negative and sign and magnitude give back the amount |
| HomePage.HomeListsSpec | app/src/main/java/com/ramphal/personalfinancepro/ui/home/HomePageView.kt:118-130 | upcoming holds exactly the rows after now, oldest first; completed holds exactly the month's rows not after now, newest first; in both, rows with equal timestamps keep table order |
| HomePage.UpcomingSorted | app/src/main/java/com/ramphal/personalfinancepro/ui/home/HomePageView.kt:118-123 | definition of the upcoming list; `HomeListsSpec` states its contents and order |
| HomePage.CompletedSorted | app/src/main/java/com/ramphal/personalfinancepro/ui/home/HomePageView.kt:125-130 | definition of the completed list; `HomeListsSpec` states its contents and order |
| HomePage.DeleteReversal | app/src/main/java/com/ramphal/personalfinancepro/ui/home/HomePageView.kt:173-209 | the handler's reversal keeps key, currency and card flag; for Expense, Income and Transfer applying the row again gives back the balance; any other type is taken out as a Transfer between its ends |
| HomePage.CardTotal | app/src/main/java/com/ramphal/personalfinancepro/ui/home/HomePageView.kt:402-407 | the card total is the sum of the four accounts, less the card account when the user has no card |
| TransactionHistory.HistoryListsSpec | app/src/main/java/com/ramphal/personalfinancepro/ui/history/TransactionHistoryView.kt:70-74 | every row is shown once: upcoming (after now, oldest first) and completed (the rest, newest first) together are the table as a multiset; rows with equal timestamps keep table order |
| TransactionHistory.HistoryLists | app/src/main/java/com/ramphal/personalfinancepro/ui/history/TransactionHistoryView.kt:70-74 | definition of the history screen's two lists; `HistoryListsSpec` states their contents and order |
| Onboarding.FilterInput | app/src/main/java/com/ramphal/personalfinancepro/ui/onboarding/OnboardingViewModel.kt:77 | the filtered text holds only digits and dots and is no longer than the input |
| Onboarding.FilterKeepsNumberText | app/src/main/java/com/ramphal/personalfinancepro/ui/onboarding/OnboardingViewModel.kt:77 | filtering digit-and-dot text changes nothing, so filtering is idempotent |
| Onboarding.IndexOf | app/src/main/java/com/ramphal/personalfinancepro/ui/onboarding/OnboardingViewModel.kt:187 | the index of the first occurrence of a character (the dot of a number, the break of a message), or the length when there is none; nothing before it is that character |
| Onboarding.FractionValue | app/src/main/java/com/ramphal/personalfinancepro/ui/onboarding/OnboardingViewModel.kt:187 | digits after the point are worth at least 0 and less than 1 |
| Onboarding.ParseNumber | app/src/main/java/com/ramphal/personalfinancepro/ui/onboarding/OnboardingViewModel.kt:187 | filtered text reads as a number iff it has at least one digit and at most one dot; the number is non-negative |
| Onboarding.WholeNumberValue | app/src/main/java/com/ramphal/personalfinancepro/ui/onboarding/OnboardingViewModel.kt:147-149 | dot-free digits read as their integer value |
| Onboarding.ParseExamples | app/src/main/java/com/ramphal/personalfinancepro/ui/onboarding/OnboardingViewModel.kt:147-149 | "12.5" reads as 12.5, ".5" as 0.5 and "7." as 7 |
| Onboarding.LoneDotIsTheOnlyNonNumber | app/src/main/java/com/ramphal/personalfinancepro/ui/onboarding/OnboardingViewModel.kt:78 | of the non-empty inputs the screen keeps, "." is the only one that is not a number |
| Onboarding.ValidateBalanceInput | app/src/main/java/com/ramphal/personalfinancepro/ui/onboarding/OnboardingViewModel.kt:178-191 | returns the input unchanged; no error iff the input is empty and is the card input with no card, or is non-empty and reads as a number |
| Onboarding.ValidateOnSubmit | app/src/main/java/com/ramphal/personalfinancepro/ui/onboarding/OnboardingViewModel.kt:194-200 | no error iff the input reads as a number; an empty input gets "<name> cannot be empty." |
| Onboarding.FieldCheckAgreesWithSubmit | app/src/main/java/com/ramphal/personalfinancepro/ui/onboarding/OnboardingViewModel.kt:178-200 | for a required input, the check while typing and the check on submit accept the same inputs |
| Onboarding.JoinLines | app/src/main/java/com/ramphal/personalfinancepro/ui/onboarding/OnboardingViewModel.kt:142 | no lines join to "", one line to itself, and lines without line breaks are given back by splitting the result at "\n" |
| Onboarding.SplitLines | app/src/main/java/com/ramphal/personalfinancepro/ui/onboarding/OnboardingViewModel.kt:142 | the pieces between line breaks; never empty |
| Onboarding.SubmitMessageOneLine | app/src/main/java/com/ramphal/personalfinancepro/ui/onboarding/OnboardingViewModel.kt:194-200 | the submit check's message for any of the four balance fields holds no line break |
| Onboarding.SummaryListsEachError | app/src/main/java/com/ramphal/personalfinancepro/ui/onboarding/OnboardingViewModel.kt:112-142 | the summary's joined list splits back into exactly the submit errors, one per line |
| Onboarding.ErrorSummary | app/src/main/java/com/ramphal/personalfinancepro/ui/onboarding/OnboardingViewModel.kt:140-143 | definition: a header line, then the errors joined by line breaks; `SummaryListsEachError` states that each error gets its own line |
| Onboarding.SubmitErrors | app/src/main/java/com/ramphal/personalfinancepro/ui/onboarding/OnboardingViewModel.kt:112-126 | empty iff bank, cash and savings read as numbers and, with a card, the card input does too; at most four errors |
| Onboarding.CollectSubmitErrors | app/src/main/java/com/ramphal/personalfinancepro/ui/onboarding/OnboardingViewModel.kt:112-126 | the list appended field by field is `SubmitErrors`: bank, cash, savings, then the card only with a card |
| Onboarding.OnboardingRecord | app/src/main/java/com/ramphal/personalfinancepro/ui/onboarding/OnboardingViewModel.kt:147-163 | key 0, currency and card flag from the screen, the parsed inputs as balances, the card balance negated or 0 without a card; the card balance is never positive |
| Onboarding.WithFieldErrors | app/src/main/java/com/ramphal/personalfinancepro/ui/onboarding/OnboardingViewModel.kt:130-137 | sets each field's error to its field check (none for the card without a card) and changes nothing else |
| Onboarding.SubmitFieldError | app/src/main/java/com/ramphal/personalfinancepro/ui/onboarding/OnboardingViewModel.kt:130-137 | definition of the error a field shows after submit; `FieldErrorsMatchSummary` and `AfterSubmitSpec` state its properties |
| Onboarding.SameInputsSameFieldErrors | app/src/main/java/com/ramphal/personalfinancepro/ui/onboarding/OnboardingViewModel.kt:130-137 | the field errors depend only on the inputs and the card flag |
| Onboarding.FieldErrorsMatchSummary | app/src/main/java/com/ramphal/personalfinancepro/ui/onboarding/OnboardingViewModel.kt:112-137 | the summary is empty iff no field shows an error |
| Onboarding.AfterSubmitSpec | app/src/main/java/com/ramphal/personalfinancepro/ui/onboarding/OnboardingViewModel.kt:101-176 | after submit saving is over; inputs, currency and card flag kept; each field shows its check's error; the message is the error summary, the save failure, or none with success raised; inputs stay well formed |
| Onboarding.AfterSubmit | app/src/main/java/com/ramphal/personalfinancepro/ui/onboarding/OnboardingViewModel.kt:101-176 | definition of the screen state after submit; `AfterSubmitSpec` states what it shows |
| Onboarding.OnboardingViewModel.constructor | app/src/main/java/com/ramphal/personalfinancepro/ui/onboarding/OnboardingViewModel.kt:26-41 | the screen starts in the default state (currency "$", empty inputs, no card, no errors) with well-formed inputs |
| Onboarding.OnboardingViewModel.OnCurrencySymbolChange | app/src/main/java/com/ramphal/personalfinancepro/ui/onboarding/OnboardingViewModel.kt:71-73 | only the currency symbol changes |
| Onboarding.OnboardingViewModel.OnBalanceInputChange | app/src/main/java/com/ramphal/personalfinancepro/ui/onboarding/OnboardingViewModel.kt:75-89 | with at most one dot after filtering, only the targeted input and its error change, to the filtered text and its field check; otherwise nothing changes; inputs stay well formed |
| Onboarding.OnboardingViewModel.OnCreditCardToggle | app/src/main/java/com/ramphal/personalfinancepro/ui/onboarding/OnboardingViewModel.kt:91-97 | sets the flag; turning it off also clears the card input to "" and its error to none |
| Onboarding.OnboardingViewModel.CompleteOnboarding | app/src/main/java/com/ramphal/personalfinancepro/ui/onboarding/OnboardingViewModel.kt:101-176 | the screen ends in `AfterSubmit`; the record is stored iff there are no errors and the insert succeeds; any error means no write; consistency kept |

## Left out

- Amounts are exact `real`s, not `Double`s. Rounding, and the Double/String round trip of the stored amount, are not modelled.
- The create and edit paths take `toDoubleOrNull`'s result as the parameter `parsedAmount`. The parser itself is modelled only for the onboarding inputs, which the filter restricts to digits and dots.
- AddTransaction.UpdateTransaction: the stored amount is the parsed value, not the raw amount string that the edit path stores.
- Onboarding.IsDigit: only ASCII digits are accepted. Kotlin's `isDigit` also accepts other Unicode decimal digits, and the parser has no exponents or signs, which the filter never lets through.
- AddTransaction.Trim: whitespace is the six ASCII whitespace characters, not Kotlin's full Unicode whitespace set.
- AddTransaction.UpdateTransaction: the screen edits the row it loaded earlier. The model looks that row up by key at save time, so it cannot capture a row that changed or vanished in between.
- Store writes run one after another. `launch(Dispatchers.IO)` coroutines and their possible reordering or races are not modelled.
- The stores collected as `Flow`s, and their initial values, are reduced to `ScreenBalance`: the stored record, or the all-zero default.
- Room and SharedPreferences persistence are not modelled. That includes the onboarding-complete flag (`setOnboardingComplete`, `isOnboardingComplete`).
- HomePageViewModel.ProcessDueScheduledTransactions: the exception that is caught and logged is not modelled. A store write that throws midway would leave a partial sweep.
- Onboarding.OnboardingViewModel.CompleteOnboarding: the insert's outcome is the parameter `saveResult`. A failed insert writes nothing. The `onSuccess` navigation callback is the `saved` result.
- The date-based queries (today's expense, this month's income and expense, this month's rows) depend on local time zones and `strftime`. They are not modelled. The home screen's month rows are a parameter of `HomePage.CompletedSorted`.
- The following are not modelled:
  - toasts, keyboard and navigation
  - the message texts of the create and edit paths, except as `Rejection.Text`
  - `DecimalFormat` formatting and currency display names
  - `clearErrorMessage`
  - the charts and settings screens

## Findings

| source | as written | input that shows it | evidently intended | confidence | as-written member | corrected member |
|---|---|---|---|---|---|---|
| app/src/main/java/com/ramphal/personalfinancepro/ui/home/HomePageView.kt:170-215 (same code at app/src/main/java/com/ramphal/personalfinancepro/ui/history/TransactionHistoryView.kt:129-174) | the delete handler reverses the row's effect without checking `isScheduled` | a scheduled Expense of 10 from bank, which never lowered the bank balance: deleting it raises bank by 10 | reverse only completed rows, as the edit path does with `oldTxWasCompleted` | high, not executed | HomePage.DeleteScheduledExpenseDrifts (on HomePage.ConfirmDelete / HomePage.DeleteReversal) | HomePage.ConfirmDeleteSettled (HomePage.SettledDeleteReversal, HomePage.DeletePreservesReconciled) |
| app/src/main/java/com/ramphal/personalfinancepro/ui/home/HomePageView.kt:195-209 | any type other than Expense or Income is reversed as a Transfer | a completed row of type "Loan" with `from` bank and `to` cash: deleting it moves 10 from cash to bank | ignore unknown types, as `reverseBalanceImpact` and the sweep do | medium (the app writes only the three types), not executed | HomePage.DeleteUnknownTypeDrifts (on HomePage.DeleteReversal) | HomePage.SettledDeleteReversal (HomePage.DeletePreservesReconciled) |
