/** The persistent store as an in-memory object: the transaction table, the
    single balance record, and the log of writes in the order they were made.
    Writes run one after another; the model has no concurrency. */
module Repository {
  import opened TransactionModel
  import opened BalanceImpact
  import opened TransactionDao
  import opened Ledger

  /** One write made to the store, as the store received it. */
  datatype StoreWrite =
    | OnboardingInserted(balance: Balance)
    | OnboardingUpdated(balance: Balance)
    | TransactionInserted(row: Transaction)
    | TransactionUpdated(row: Transaction)
    | TransactionDeleted(row: Transaction)

  /** What one logged write does to the transaction table; balance writes
      leave it alone. */
  function ReplayRow(rows: seq<Transaction>, w: StoreWrite): seq<Transaction> {
    match w
    case TransactionInserted(r) => rows + [r]
    case TransactionUpdated(r) => ReplaceById(rows, r)
    case TransactionDeleted(r) => RemoveById(rows, r.id)
    case _ => rows
  }

  /** The table after replaying logged writes in order, oldest first. */
  function ReplayRows(rows: seq<Transaction>, ws: seq<StoreWrite>): seq<Transaction>
    decreases |ws|
  {
    if ws == [] then rows else ReplayRows(ReplayRow(rows, ws[0]), ws[1..])
  }

  class TransactionStore {
    /** The balance record; `None` before onboarding has stored one. */
    var balance: Option<Balance>
    /** The transaction table, in insertion order. */
    var rows: seq<Transaction>
    /** The key the next inserted row receives. */
    var nextId: int
    /** Every write made so far, oldest first. */
    var writes: seq<StoreWrite>
    /** The balances the accounts had when the balance record was stored,
        net of the rows that existed then. */
    ghost var opening: Balance

    /** Row keys are unique and below the next key to hand out. */
    ghost predicate WellFormed()
      reads this
    {
      UniqueIds(rows) && forall t :: t in rows ==> t.id < nextId
    }

    /** The balance record agrees with the rows. */
    ghost predicate Consistent()
      reads this
    {
      balance.Some? ==> Reconciled(balance.value, opening, rows)
    }

    constructor ()
      ensures WellFormed() && Consistent()
      ensures balance.None? && rows == [] && writes == [] && nextId == 1
    {
      balance := None;
      rows := [];
      nextId := 1;
      writes := [];
      opening := DefaultBalance;
    }

    /** The balance record as the screens see it: the stored record, or the
        all-zero default while none has been stored. */
    function ScreenBalance(): (r: Balance)
      reads this
      ensures balance.Some? ==> r == balance.value
      ensures balance.None? ==> r == DefaultBalance
    {
      balance.GetOr(DefaultBalance)
    }

    /** `addOnboardingData`: inserts the balance record, ignored when one
        already exists. */
    method AddOnboardingData(b: Balance)
      requires WellFormed()
      modifies this
      ensures WellFormed() && rows == old(rows) && nextId == old(nextId)
      ensures writes == old(writes) + [OnboardingInserted(b)]
      ensures balance == if old(balance).None? then Some(b) else old(balance)
      ensures old(Consistent()) ==> Consistent()
    {
      writes := writes + [OnboardingInserted(b)];
      if balance.None? {
        balance := Some(b);
        opening := Opening(b, rows);
      }
    }

    /** `updateOnboardingData`: replaces the balance record with the same key;
        writes nothing when there is no such record. */
    method UpdateOnboardingData(b: Balance)
      modifies this`balance, this`writes
      ensures writes == old(writes) + [OnboardingUpdated(b)]
      ensures balance == if old(balance).Some? && old(balance).value.id == b.id then Some(b) else old(balance)
    {
      writes := writes + [OnboardingUpdated(b)];
      if balance.Some? && balance.value.id == b.id {
        balance := Some(b);
      }
    }

    /** `addTransaction`: inserts the row under a fresh key and returns the key. */
    method AddTransaction(t: Transaction) returns (id: int)
      requires WellFormed()
      modifies this`rows, this`nextId, this`writes
      ensures WellFormed()
      ensures id == old(nextId) && nextId == old(nextId) + 1
      ensures rows == old(rows) + [t.(id := id)]
      ensures writes == old(writes) + [TransactionInserted(t.(id := id))]
    {
      id := nextId;
      rows := rows + [t.(id := id)];
      nextId := nextId + 1;
      writes := writes + [TransactionInserted(t.(id := id))];
    }

    /** `updateTransaction`: replaces the row with the key of `t`. */
    method UpdateTransaction(t: Transaction)
      requires WellFormed()
      modifies this`rows, this`writes
      ensures WellFormed()
      ensures rows == ReplaceById(old(rows), t)
      ensures writes == old(writes) + [TransactionUpdated(t)]
    {
      ReplaceKeepsIds(rows, t);
      rows := ReplaceById(rows, t);
      writes := writes + [TransactionUpdated(t)];
    }

    /** `deleteTransaction`: removes the row with the key of `t`. */
    method DeleteTransaction(t: Transaction)
      requires WellFormed()
      modifies this`rows, this`writes
      ensures WellFormed()
      ensures rows == RemoveById(old(rows), t.id)
      ensures writes == old(writes) + [TransactionDeleted(t)]
    {
      RemoveKeepsIds(rows, t.id);
      rows := RemoveById(rows, t.id);
      writes := writes + [TransactionDeleted(t)];
    }
  }
}
