/** The home screen: the delete-confirm handler, the balance card's total, the
    sign of a displayed amount, and the upcoming and completed lists. */
module HomePage {
  import opened TransactionModel
  import opened BalanceImpact
  import opened TransactionDao
  import opened Ledger
  import opened Repository
  import opened TransactionLists

  // ----- delete, as the handler is written -----

  /** The type the delete handler reverses a row as: anything that is not
      Expense or Income falls into its Transfer branch. */
  function DeleteKind(kind: TxType): TxType {
    if kind.Other? then Transfer else kind
  }

  /** The balance the delete handler writes: the row's effect taken out as if
      it had been applied, whether or not it was. */
  function DeleteReversal(b: Balance, tx: Transaction): (r: Balance)
    ensures SameMeta(r, b)
    ensures tx.kind.Known() ==> ApplyBalanceImpact(r, tx.kind, tx.from, tx.to, tx.amount) == b
    ensures tx.kind.Other? ==> forall k :: IsAccount(k) ==>
      Field(r, k) == Field(b, k) - Impact(Transfer, tx.from, tx.to, tx.amount, k)
  {
    ApplyUndoesReverse(b, tx);
    ReverseBalanceImpact(b, tx.(kind := DeleteKind(tx.kind)))
  }

  /** The delete-confirm handler: reverses the row's effect on the balance the
      screen shows, writes that balance, then deletes the row by its key. */
  method ConfirmDelete(store: TransactionStore, tx: Transaction)
    requires store.WellFormed()
    modifies store
    ensures store.WellFormed() && store.nextId == old(store.nextId)
    ensures var b := DeleteReversal(old(store.ScreenBalance()), tx);
      store.rows == RemoveById(old(store.rows), tx.id)
      && store.writes == old(store.writes) + [OnboardingUpdated(b), TransactionDeleted(tx)]
      && store.balance == if old(store.balance).Some? then Some(b) else None
    ensures old(store.Consistent()) && tx in old(store.rows) && !tx.isScheduled && tx.kind.Known()
      ==> store.Consistent()
  {
    var onboardingModel := store.ScreenBalance();
    var updatedOnboardingModel := onboardingModel;
    match tx.kind {
      case Expense =>
        updatedOnboardingModel := UpdateBalanceForAccount(updatedOnboardingModel, tx.from, tx.amount);
      case Income =>
        updatedOnboardingModel := UpdateBalanceForAccount(updatedOnboardingModel, tx.to, tx.amount * -1.0);
      case _ =>
        updatedOnboardingModel := UpdateBalanceForAccount(updatedOnboardingModel, tx.from, tx.amount);
        updatedOnboardingModel := UpdateBalanceForAccount(updatedOnboardingModel, tx.to, tx.amount * -1.0);
    }
    assert updatedOnboardingModel == DeleteReversal(onboardingModel, tx);
    if store.Consistent() && store.balance.Some? && tx in store.rows && !tx.isScheduled && tx.kind.Known() {
      DeletePreservesReconciled(store.balance.value, store.opening, store.rows, tx);
    }
    store.UpdateOnboardingData(updatedOnboardingModel);
    store.DeleteTransaction(tx);
  }

  /** How far the handler's balance ends from the reconciled one: on each
      account it is off by the row's contribution minus what it reverses. */
  lemma DeleteDrift(b: Balance, opening: Balance, rows: seq<Transaction>, tx: Transaction, k: int)
    requires Reconciled(b, opening, rows) && UniqueIds(rows) && tx in rows && IsAccount(k)
    ensures Field(DeleteReversal(b, tx), k)
      == Field(opening, k) + AccountNet(RemoveById(rows, tx.id), k)
         + Contribution(tx, k) - TxImpact(tx.(kind := DeleteKind(tx.kind)), k)
  {
    NetRemove(rows, tx, k);
  }

  /** Deleting a scheduled Expense of 10 from the bank account raises the bank
      balance by 10, although the row never lowered it. */
  lemma DeleteScheduledExpenseDrifts()
    ensures var tx := Transaction(1, Expense, 0, 5, 100, 10.0, "", true);
      Reconciled(DefaultBalance, DefaultBalance, [tx])
      && Field(DeleteReversal(DefaultBalance, tx), 0) == 10.0
      && !Reconciled(DeleteReversal(DefaultBalance, tx), DefaultBalance, RemoveById([tx], tx.id))
  {
    var tx := Transaction(1, Expense, 0, 5, 100, 10.0, "", true);
    assert AccountNet([tx], 0) == 0.0;
    assert AccountNet([tx], 1) == 0.0;
    assert AccountNet([tx], 2) == 0.0;
    assert AccountNet([tx], 3) == 0.0;
    assert RemoveById([tx], tx.id) == [];
  }

  /** Deleting a completed row of a type the app does not write, recorded with
      bank as `from` and cash as `to`, moves 10 from cash to bank although the
      row never moved anything. */
  lemma DeleteUnknownTypeDrifts()
    ensures var tx := Transaction(1, Other("Loan"), 0, 2, 100, 10.0, "", false);
      Reconciled(DefaultBalance, DefaultBalance, [tx])
      && Field(DeleteReversal(DefaultBalance, tx), 0) == 10.0
      && Field(DeleteReversal(DefaultBalance, tx), 2) == -10.0
      && !Reconciled(DeleteReversal(DefaultBalance, tx), DefaultBalance, RemoveById([tx], tx.id))
  {
    var tx := Transaction(1, Other("Loan"), 0, 2, 100, 10.0, "", false);
    assert AccountNet([tx], 0) == 0.0;
    assert AccountNet([tx], 1) == 0.0;
    assert AccountNet([tx], 2) == 0.0;
    assert AccountNet([tx], 3) == 0.0;
    assert RemoveById([tx], tx.id) == [];
  }

  // ----- delete, corrected -----

  /** The balance a delete should write: the row's effect taken out only if
      the row is completed. */
  function SettledDeleteReversal(b: Balance, tx: Transaction): (r: Balance)
    ensures SameMeta(r, b)
    ensures forall k :: IsAccount(k) ==> Field(r, k) == Field(b, k) - Contribution(tx, k)
  {
    if tx.isScheduled then b else ReverseBalanceImpact(b, tx)
  }

  /** For a completed row of one of the three types the app writes, the
      handler's reversal is the corrected one. */
  lemma DeleteAgreesWhenSettled(b: Balance, tx: Transaction)
    requires !tx.isScheduled && tx.kind.Known()
    ensures DeleteReversal(b, tx) == SettledDeleteReversal(b, tx)
  {
    assert tx.(kind := DeleteKind(tx.kind)) == tx;
  }

  /** Deleting a row and taking out its contribution keeps the balance
      reconciled. */
  lemma DeletePreservesReconciled(b: Balance, opening: Balance, rows: seq<Transaction>, tx: Transaction)
    requires Reconciled(b, opening, rows) && UniqueIds(rows) && tx in rows
    ensures Reconciled(SettledDeleteReversal(b, tx), opening, RemoveById(rows, tx.id))
    ensures !tx.isScheduled && tx.kind.Known() ==> Reconciled(DeleteReversal(b, tx), opening, RemoveById(rows, tx.id))
  {
    forall k | IsAccount(k)
      ensures AccountNet(RemoveById(rows, tx.id), k) == AccountNet(rows, k) - Contribution(tx, k)
    {
      NetRemove(rows, tx, k);
    }
    if !tx.isScheduled && tx.kind.Known() {
      DeleteAgreesWhenSettled(b, tx);
    }
  }

  /** The delete handler corrected: it looks up the stored row by key, takes
      its effect out of the balance only if it is completed, writes the
      balance only then, and deletes the row. */
  method ConfirmDeleteSettled(store: TransactionStore, tx: Transaction)
    requires store.WellFormed()
    modifies store
    ensures store.WellFormed() && store.nextId == old(store.nextId)
    ensures var stored := FindById(old(store.rows), tx.id);
      store.rows == RemoveById(old(store.rows), tx.id)
      && (stored.Some? && !stored.value.isScheduled ==>
            var b := SettledDeleteReversal(old(store.ScreenBalance()), stored.value);
            store.writes == old(store.writes) + [OnboardingUpdated(b), TransactionDeleted(tx)]
            && store.balance == if old(store.balance).Some? then Some(b) else None)
      && (!(stored.Some? && !stored.value.isScheduled) ==>
            store.writes == old(store.writes) + [TransactionDeleted(tx)]
            && store.balance == old(store.balance))
    ensures old(store.Consistent()) ==> store.Consistent()
  {
    var stored := FindById(store.rows, tx.id);
    if store.Consistent() && store.balance.Some? {
      if stored.Some? {
        DeletePreservesReconciled(store.balance.value, store.opening, store.rows, stored.value);
      } else {
        RemoveAbsent(store.rows, tx.id);
      }
    }
    if stored.Some? && !stored.value.isScheduled {
      var updated := ReverseBalanceImpact(store.ScreenBalance(), stored.value);
      store.UpdateOnboardingData(updated);
    }
    store.DeleteTransaction(tx);
  }

  // ----- the balance card -----

  /** The total on the balance card: bank, cash and savings, plus the credit
      card balance only when the user has a card. */
  function CardTotal(b: Balance): (r: real)
    ensures r == AccountsTotal(b) - if b.hasCreditCard then 0.0 else Field(b, 3)
  {
    b.bankBalance + b.cashBalance + b.savingsBalance + if b.hasCreditCard then b.creditCardBalance else 0.0
  }

  /** The card total moves with the total-balance query: its change since
      onboarding is what the query reports, less the credit card account's
      movement when no card is shown. */
  lemma CardTotalTracksQuery(b: Balance, opening: Balance, rows: seq<Transaction>, now: int)
    requires Reconciled(b, opening, rows)
    requires forall t :: t in rows ==> AccountsValid(t) && (t.isScheduled <==> t.timestamp > now)
    ensures CardTotal(b) == CardTotal(opening) + TotalBalance(rows, now)
      - (if b.hasCreditCard then 0.0 else AccountNet(rows, 3))
  {
    ReconciledMatchesTotalBalanceQuery(b, opening, rows, now);
  }

  // ----- the displayed sign -----

  /** The sign and magnitude a displayed amount is split into: "-" exactly
      for a negative amount, "+" otherwise, and the absolute value. */
  function AmountSign(rawAmount: real): (r: (string, real))
    ensures r.0 == "-" <==> rawAmount < 0.0
    ensures r.0 == "-" || r.0 == "+"
    ensures r.1 >= 0.0
    ensures (if r.0 == "-" then -r.1 else r.1) == rawAmount
  {
    var sign := if rawAmount < 0.0 then "-" else "+";
    var magnitude := if rawAmount < 0.0 then -rawAmount else rawAmount;
    (sign, magnitude)
  }

  // ----- the lists -----

  /** The upcoming rows: all rows dated after now, oldest first. */
  function UpcomingSorted(allTransactions: seq<Transaction>, now: int): seq<Transaction> {
    SortAsc(Upcoming(allTransactions, now))
  }

  /** The completed rows of this month: the month's rows not dated after now,
      newest first. */
  function CompletedSorted(thisMonthTransactions: seq<Transaction>, now: int): seq<Transaction> {
    SortDesc(NotUpcoming(thisMonthTransactions, now))
  }

  /** The upcoming list holds exactly the rows dated after now, oldest
      first; the completed list holds exactly the month's rows not dated after
      now, newest first; in both, rows sharing a timestamp keep their order. */
  lemma HomeListsSpec(allTransactions: seq<Transaction>, thisMonthTransactions: seq<Transaction>, now: int)
    ensures SortedAsc(UpcomingSorted(allTransactions, now))
    ensures forall t :: t in UpcomingSorted(allTransactions, now) <==> t in allTransactions && t.timestamp > now
    ensures SortedDesc(CompletedSorted(thisMonthTransactions, now))
    ensures forall t :: t in CompletedSorted(thisMonthTransactions, now) <==> t in thisMonthTransactions && t.timestamp <= now
    ensures forall x :: WithTimestamp(UpcomingSorted(allTransactions, now), x) == WithTimestamp(Upcoming(allTransactions, now), x)
    ensures forall x ::
      WithTimestamp(CompletedSorted(thisMonthTransactions, now), x) == WithTimestamp(NotUpcoming(thisMonthTransactions, now), x)
  {
    SortKeepsRows(Upcoming(allTransactions, now));
    SortKeepsRows(NotUpcoming(thisMonthTransactions, now));
  }
}
