/** Saving a new transaction and saving an edited one, from the add/edit
    screen: input validation first, then the balance write (if any), then the
    row write. */
module AddTransaction {
  import opened TransactionModel
  import opened BalanceImpact
  import opened TransactionDao
  import opened Ledger
  import opened Repository

  // ----- the transaction-type selector -----

  /** The type selected by the segmented button: 0 Expense, 1 Income, any other Transfer. */
  function SegmentToType(selectedIndex: int): TxType {
    if selectedIndex == 0 then Expense else if selectedIndex == 1 then Income else Transfer
  }

  /** The segment shown for a stored row: Expense 0, Income 1, anything else 2. */
  function TypeToSegment(t: TxType): int {
    if t == Expense then 0 else if t == Income then 1 else 2
  }

  /** Opening a row for editing and saving it without touching the selector
      keeps its type, for the three types the app writes; the three segments
      survive the opposite trip, and every other index shows as Transfer. */
  lemma SegmentRoundTrip(t: TxType, selectedIndex: int)
    ensures t.Known() ==> SegmentToType(TypeToSegment(t)) == t
    ensures 0 <= selectedIndex <= 2 ==> TypeToSegment(SegmentToType(selectedIndex)) == selectedIndex
    ensures !(0 <= selectedIndex <= 1) ==> SegmentToType(selectedIndex) == Transfer
    ensures t.Other? ==> SegmentToType(TypeToSegment(t)) == Transfer
  {
  }

  // ----- validation -----

  datatype Rejection =
    | EmptyAmount
    | InvalidAmount
    | MissingCategory
    | DisallowedPair
    | MissingAccounts
    | SameAccounts
    | NoTransactionToEdit
  {
    /** The message shown to the user. */
    function Text(): string {
      match this
      case EmptyAmount => "Please enter amount"
      case InvalidAmount => "Please enter a valid amount greater than 0"
      case MissingCategory => "Please select category"
      case DisallowedPair => "Please select different category or different account"
      case MissingAccounts => "Please select both 'From' and 'To' accounts"
      case SameAccounts => "'From' and 'To' accounts cannot be the same"
      case NoTransactionToEdit => "Error: No transaction data to edit."
    }
  }

  datatype Outcome = Rejected(reason: Rejection) | Saved(scheduled: bool)

  /** The (account, category) pairs an Expense may not use. */
  predicate DisallowedExpensePair(from: int, to: int) {
    (from == 9 && to == 1) || (from == 10 && to == 4)
  }

  /** The disallowed pairs name account 9 and account 10, and only four
      accounts exist: an Expense whose `from` is an account never hits them. */
  lemma DisallowedPairUnreachable(from: int, to: int)
    requires IsAccount(from)
    ensures !DisallowedExpensePair(from, to)
  {
  }

  /** The amount checks, shared by create and edit; `parsedAmount` is what
      parsing the text as a number gives. */
  function AmountRejection(amount: string, parsedAmount: Option<real>): (r: Option<Rejection>)
    ensures r.None? <==> amount != "" && parsedAmount.Some? && parsedAmount.value > 0.0
    ensures amount == "" ==> r == Some(EmptyAmount)
  {
    if amount == "" then Some(EmptyAmount)
    else if parsedAmount.None? || parsedAmount.value <= 0.0 then Some(InvalidAmount)
    else None
  }

  /** The checks of the create path, in the order it makes them. */
  function CreateRejection(amount: string, parsedAmount: Option<real>, selectedIndex: int, from: int, to: int): (r: Option<Rejection>)
    ensures amount == "" ==> r == Some(EmptyAmount)
    ensures r.None? <==>
      amount != "" && parsedAmount.Some? && parsedAmount.value > 0.0
      && (selectedIndex == 0 ==> to != -1 && !DisallowedExpensePair(from, to))
      && (selectedIndex == 1 ==> from != -1)
      && (selectedIndex != 0 && selectedIndex != 1 ==> from != to)
  {
    if AmountRejection(amount, parsedAmount).Some? then AmountRejection(amount, parsedAmount)
    else if selectedIndex == 0 then
      if to == -1 then Some(MissingCategory)
      else if DisallowedExpensePair(from, to) then Some(DisallowedPair)
      else None
    else if selectedIndex == 1 then
      if from == -1 then Some(MissingCategory) else None
    else
      if from == to then Some(SameAccounts) else None
  }

  /** The checks of the edit path, in the order it makes them; `found` says
      whether the row being edited exists. */
  function EditRejection(amount: string, parsedAmount: Option<real>, found: bool, selectedIndex: int, from: int, to: int): (r: Option<Rejection>)
    ensures amount == "" ==> r == Some(EmptyAmount)
    ensures AmountRejection(amount, parsedAmount).None? && !found ==> r == Some(NoTransactionToEdit)
  {
    if AmountRejection(amount, parsedAmount).Some? then AmountRejection(amount, parsedAmount)
    else if !found then Some(NoTransactionToEdit)
    else match SegmentToType(selectedIndex)
      case Expense =>
        if to == -1 then Some(MissingCategory)
        else if DisallowedExpensePair(from, to) then Some(DisallowedPair)
        else None
      case Income =>
        if from == -1 then Some(MissingCategory) else None
      case _ =>
        if from == -1 || to == -1 then Some(MissingAccounts)
        else if from == to then Some(SameAccounts)
        else None
  }

  /** Edit accepts exactly what create accepts, except a Transfer with an
      unselected end, which only edit rejects. */
  lemma EditStricterThanCreate(amount: string, parsedAmount: Option<real>, selectedIndex: int, from: int, to: int)
    ensures EditRejection(amount, parsedAmount, true, selectedIndex, from, to).None?
      <==> CreateRejection(amount, parsedAmount, selectedIndex, from, to).None?
           && !(SegmentToType(selectedIndex) == Transfer && (from == -1 || to == -1))
  {
  }

  // ----- the new row -----

  predicate IsWhitespace(c: char) {
    c == ' ' || c == '\t' || c == '\n' || c == '\r' || c == '\U{000B}' || c == '\U{000C}'
  }

  /** `r` is `s[i..j]`, and everything of `s` outside it is whitespace. */
  predicate TrimmedSlice(s: string, r: string, i: int, j: int) {
    0 <= i <= j <= |s| && r == s[i..j]
    && (forall k :: 0 <= k < i ==> IsWhitespace(s[k]))
    && (forall k :: j <= k < |s| ==> IsWhitespace(s[k]))
  }

  /** The note with leading and trailing whitespace removed: a slice of the
      input with only whitespace cut off either side, and no whitespace left
      at either end. */
  function Trim(s: string): (r: string)
    ensures exists i, j :: TrimmedSlice(s, r, i, j)
    ensures r != [] ==> !IsWhitespace(r[0]) && !IsWhitespace(r[|r| - 1])
    ensures |r| <= |s|
    ensures (forall i :: 0 <= i < |s| ==> !IsWhitespace(s[i])) ==> r == s
    decreases |s|
  {
    if s == [] then
      assert TrimmedSlice(s, s, 0, 0);
      s
    else if IsWhitespace(s[0]) then
      var r := Trim(s[1..]);
      var i, j :| TrimmedSlice(s[1..], r, i, j);
      SliceAfterLeadingSpace(s, r, i, j);
      r
    else if IsWhitespace(s[|s| - 1]) then
      var r := Trim(s[..|s| - 1]);
      var i, j :| TrimmedSlice(s[..|s| - 1], r, i, j);
      SliceBeforeTrailingSpace(s, r, i, j);
      r
    else
      assert TrimmedSlice(s, s, 0, |s|);
      s
  }

  lemma SliceAfterLeadingSpace(s: string, r: string, i: int, j: int)
    requires s != [] && IsWhitespace(s[0]) && TrimmedSlice(s[1..], r, i, j)
    ensures TrimmedSlice(s, r, i + 1, j + 1)
  {
    assert s[1..][i..j] == s[i + 1..j + 1];
    forall k | 1 <= k < i + 1 ensures IsWhitespace(s[k]) {
      assert s[k] == s[1..][k - 1];
    }
    forall k | j + 1 <= k < |s| ensures IsWhitespace(s[k]) {
      assert s[k] == s[1..][k - 1];
    }
  }

  lemma SliceBeforeTrailingSpace(s: string, r: string, i: int, j: int)
    requires s != [] && IsWhitespace(s[|s| - 1]) && TrimmedSlice(s[..|s| - 1], r, i, j)
    ensures TrimmedSlice(s, r, i, j)
  {
    assert s[..|s| - 1][i..j] == s[i..j];
    forall k | j <= k < |s| - 1 ensures IsWhitespace(s[k]) {
      assert s[k] == s[..|s| - 1][k];
    }
  }

  /** Whitespace on both sides is cut off: " a b " trims to "a b". */
  lemma TrimExample()
    ensures Trim(" a b ") == "a b"
  {
    assert IsWhitespace(" a b "[0]);
    assert " a b "[1..] == "a b ";
    assert !IsWhitespace("a b "[0]) && IsWhitespace("a b "[3]);
    assert "a b "[..3] == "a b";
    assert !IsWhitespace("a b"[0]) && !IsWhitespace("a b"[2]);
  }

  /** The row a save writes: scheduled when its date is after now. */
  function NewRow(id: int, selectedIndex: int, from: int, to: int, dateSelected: int, now: int, amount: real, note: string): Transaction {
    Transaction(id, SegmentToType(selectedIndex), from, to, dateSelected, amount, Trim(note), dateSelected > now)
  }

  /** Inserting a row keeps the balance reconciled when the balance receives
      the row's effect exactly when the row is completed. */
  lemma InsertPreservesReconciled(b: Balance, opening: Balance, rows: seq<Transaction>, row: Transaction)
    requires Reconciled(b, opening, rows)
    ensures Reconciled(if row.isScheduled then b else ApplyBalanceImpact(b, row.kind, row.from, row.to, row.amount),
                       opening, rows + [row])
  {
    forall k | IsAccount(k) ensures AccountNet(rows + [row], k) == AccountNet(rows, k) + Contribution(row, k) {
      NetAppend(rows, row, k);
    }
  }

  // ----- create -----

  /** `savaNewTransaction`: validates the input; a future-dated row is inserted
      as scheduled with no balance write; otherwise the balance receives the
      row's effect and is written, and then the row is inserted as completed. */
  method SaveNewTransaction(store: TransactionStore, amount: string, parsedAmount: Option<real>,
                            selectedIndex: int, transactionFromIndex: int, transactionToIndex: int,
                            dateSelected: int, now: int, note: string) returns (outcome: Outcome)
    requires store.WellFormed()
    modifies store
    ensures store.WellFormed()
    ensures var rejection := CreateRejection(amount, parsedAmount, selectedIndex, transactionFromIndex, transactionToIndex);
      outcome == if rejection.Some? then Rejected(rejection.value) else Saved(dateSelected > now)
    ensures outcome.Rejected? ==>
      store.rows == old(store.rows) && store.balance == old(store.balance)
      && store.writes == old(store.writes) && store.nextId == old(store.nextId)
    ensures outcome.Saved? ==>
      var row := NewRow(old(store.nextId), selectedIndex, transactionFromIndex, transactionToIndex,
                        dateSelected, now, parsedAmount.value, note);
      var b := ApplyBalanceImpact(old(store.ScreenBalance()), row.kind, row.from, row.to, row.amount);
      store.rows == old(store.rows) + [row] && store.nextId == old(store.nextId) + 1
      && (row.isScheduled ==>
            store.writes == old(store.writes) + [TransactionInserted(row)]
            && store.balance == old(store.balance))
      && (!row.isScheduled ==>
            store.writes == old(store.writes) + [OnboardingUpdated(b), TransactionInserted(row)]
            && store.balance == if old(store.balance).Some? then Some(b) else None)
    ensures old(store.Consistent()) ==> store.Consistent()
  {
    if amount == "" {
      return Rejected(EmptyAmount);
    } else if parsedAmount.None? || parsedAmount.value <= 0.0 {
      return Rejected(InvalidAmount);
    }
    var value := parsedAmount.value;
    var kind: TxType;
    if selectedIndex == 0 {
      if transactionToIndex == -1 {
        return Rejected(MissingCategory);
      } else if transactionFromIndex == 9 && transactionToIndex == 1 {
        return Rejected(DisallowedPair);
      } else if transactionFromIndex == 10 && transactionToIndex == 4 {
        return Rejected(DisallowedPair);
      }
      kind := Expense;
    } else if selectedIndex == 1 {
      if transactionFromIndex == -1 {
        return Rejected(MissingCategory);
      }
      kind := Income;
    } else {
      if transactionFromIndex == transactionToIndex {
        return Rejected(SameAccounts);
      }
      kind := Transfer;
    }
    ghost var opening := store.opening;
    ghost var oldRows := store.rows;
    ghost var row := NewRow(store.nextId, selectedIndex, transactionFromIndex, transactionToIndex,
                            dateSelected, now, value, note);
    if dateSelected > now {
      var id := store.AddTransaction(Transaction(0, kind, transactionFromIndex, transactionToIndex,
                                                 dateSelected, value, Trim(note), true));
      outcome := Saved(true);
    } else {
      var updated := store.ScreenBalance();
      if kind == Expense {
        updated := UpdateBalanceForAccount(updated, transactionFromIndex, -value);
      } else if kind == Income {
        updated := UpdateBalanceForAccount(updated, transactionToIndex, value);
      } else {
        updated := UpdateBalanceForAccount(updated, transactionFromIndex, -value);
        updated := UpdateBalanceForAccount(updated, transactionToIndex, value);
      }
      assert updated == ApplyBalanceImpact(old(store.ScreenBalance()), kind, transactionFromIndex, transactionToIndex, value);
      store.UpdateOnboardingData(updated);
      var id := store.AddTransaction(Transaction(0, kind, transactionFromIndex, transactionToIndex,
                                                 dateSelected, value, Trim(note), false));
      outcome := Saved(false);
    }
    if old(store.balance).Some? && old(store.Consistent()) {
      InsertPreservesReconciled(old(store.balance).value, opening, oldRows, row);
    }
  }

  // ----- edit -----

  /** The balance after an edit: the stored row's effect is taken out if it
      was completed, and the new row's effect is put in if it is completed. */
  function EditedBalance(b: Balance, prev: Transaction, row: Transaction): (r: Balance)
    ensures SameMeta(r, b)
    ensures forall k :: IsAccount(k) ==>
      Field(r, k) == Field(b, k) - Contribution(prev, k) + Contribution(row, k)
  {
    var reverted := if !prev.isScheduled then ReverseBalanceImpact(b, prev) else b;
    if !row.isScheduled then ApplyBalanceImpact(reverted, row.kind, row.from, row.to, row.amount) else reverted
  }

  /** Whether an edit writes the balance: when the stored row was completed or
      the new one is. */
  predicate BalanceTouched(prev: Transaction, row: Transaction) {
    !prev.isScheduled || !row.isScheduled
  }

  /** Saving a completed row with its type, accounts and amount unchanged and a
      date that is not in the future leaves the balance as it was. */
  lemma UnchangedEditKeepsBalance(b: Balance, prev: Transaction, row: Transaction)
    requires !prev.isScheduled && !row.isScheduled
    requires row.kind == prev.kind && row.from == prev.from && row.to == prev.to && row.amount == prev.amount
    ensures EditedBalance(b, prev, row) == b
  {
    ApplyUndoesReverse(b, prev);
  }

  /** An edit that leaves the row scheduled, or a scheduled row's edit that
      stays in the future, writes no balance and changes none. */
  lemma ScheduledEditKeepsBalance(b: Balance, prev: Transaction, row: Transaction)
    requires prev.isScheduled && row.isScheduled
    ensures !BalanceTouched(prev, row) && EditedBalance(b, prev, row) == b
  {
  }

  /** Replacing a row keeps the balance reconciled when the balance goes
      through EditedBalance. */
  lemma ReplacePreservesReconciled(b: Balance, opening: Balance, rows: seq<Transaction>, prev: Transaction, row: Transaction)
    requires Reconciled(b, opening, rows)
    requires UniqueIds(rows) && prev in rows && row.id == prev.id
    ensures Reconciled(EditedBalance(b, prev, row), opening, ReplaceById(rows, row))
  {
    forall k | IsAccount(k)
      ensures AccountNet(ReplaceById(rows, row), k) == AccountNet(rows, k) - Contribution(prev, k) + Contribution(row, k)
    {
      NetReplace(rows, prev, row, k);
    }
  }

  /** The stored balance record after an edit: rewritten through
      EditedBalance when the edit touches the balance and a record exists. */
  function EditedRecord(stored: Option<Balance>, prev: Transaction, row: Transaction): Option<Balance> {
    if BalanceTouched(prev, row) && stored.Some? then Some(EditedBalance(stored.value, prev, row)) else stored
  }

  /** The writes of an edit, given the balance the screen showed: the
      balance when the edit touches it, then the row. */
  function EditWrites(screen: Balance, prev: Transaction, row: Transaction): seq<StoreWrite> {
    (if BalanceTouched(prev, row) then [OnboardingUpdated(EditedBalance(screen, prev, row))] else [])
    + [TransactionUpdated(row)]
  }

  /** Whatever the stored record, an edit keeps it reconciled: the record is
      rewritten through EditedBalance when the edit touches the balance, and
      left alone otherwise. */
  lemma EditKeepsReconciled(stored: Option<Balance>, opening: Balance, rows: seq<Transaction>,
                            prev: Transaction, row: Transaction)
    requires UniqueIds(rows) && prev in rows && row.id == prev.id
    ensures var after := EditedRecord(stored, prev, row);
      (stored.Some? ==> Reconciled(stored.value, opening, rows))
      ==> (after.Some? ==> Reconciled(after.value, opening, ReplaceById(rows, row)))
  {
    if stored.Some? && Reconciled(stored.value, opening, rows) {
      ReplacePreservesReconciled(stored.value, opening, rows, prev, row);
      if !BalanceTouched(prev, row) {
        ScheduledEditKeepsBalance(stored.value, prev, row);
      }
    }
  }

  /** The edit's balance update: the old row's effect taken out if it was
      completed, then the new row's put in if it is completed. */
  method RebalanceForEdit(b: Balance, prev: Transaction, transactionToSave: Transaction) returns (updatedOverallBalance: Balance)
    ensures updatedOverallBalance == EditedBalance(b, prev, transactionToSave)
  {
    updatedOverallBalance := b;
    var oldTxWasCompleted := !prev.isScheduled;
    if oldTxWasCompleted {
      updatedOverallBalance := ReverseBalanceImpact(updatedOverallBalance, prev);
    }
    if !transactionToSave.isScheduled {
      updatedOverallBalance := ApplyBalanceImpact(updatedOverallBalance, transactionToSave.kind,
                                                  transactionToSave.from, transactionToSave.to, transactionToSave.amount);
    }
  }

  /** The writes of a validated edit: reverses the stored row's effect if it
      was completed, applies the new effect if the new row is completed,
      writes the balance if either happened, then saves the row under the
      same key. */
  method SaveEdit(store: TransactionStore, prev: Transaction, transactionToSave: Transaction)
    requires store.WellFormed() && prev in store.rows && transactionToSave.id == prev.id
    modifies store
    ensures store.WellFormed()
    ensures store.rows == ReplaceById(old(store.rows), transactionToSave) && store.nextId == old(store.nextId)
    ensures store.balance == EditedRecord(old(store.balance), prev, transactionToSave)
    ensures store.writes == old(store.writes) + EditWrites(old(store.ScreenBalance()), prev, transactionToSave)
    ensures old(store.Consistent()) ==> store.Consistent()
  {
    EditKeepsReconciled(store.balance, store.opening, store.rows, prev, transactionToSave);
    WriteEditedBalance(store, prev, transactionToSave);
    store.UpdateTransaction(transactionToSave);
  }

  /** The balance half of an edit: computes the balance and writes it when
      the edit touches the balance. */
  method WriteEditedBalance(store: TransactionStore, prev: Transaction, transactionToSave: Transaction)
    modifies store`balance, store`writes
    ensures store.balance == EditedRecord(old(store.balance), prev, transactionToSave)
    ensures store.writes == old(store.writes)
      + (if BalanceTouched(prev, transactionToSave)
         then [OnboardingUpdated(EditedBalance(old(store.ScreenBalance()), prev, transactionToSave))] else [])
  {
    var updatedOverallBalance := RebalanceForEdit(store.ScreenBalance(), prev, transactionToSave);
    if !prev.isScheduled || !transactionToSave.isScheduled {
      store.UpdateOnboardingData(updatedOverallBalance);
    }
  }

  /** `updateTransaction` (edit): looks up the stored row by its key,
      validates the input in the order EditRejection gives, and saves the row
      under the same key with the new fields, scheduled when its date is after
      now. */
  method UpdateTransaction(store: TransactionStore, transactionId: int, amount: string, parsedAmount: Option<real>,
                           selectedIndex: int, transactionFromIndex: int, transactionToIndex: int,
                           dateSelected: int, now: int, note: string) returns (outcome: Outcome)
    requires store.WellFormed()
    modifies store
    ensures store.WellFormed()
    ensures var prev := FindById(old(store.rows), transactionId);
      var rejection := EditRejection(amount, parsedAmount, prev.Some?, selectedIndex, transactionFromIndex, transactionToIndex);
      outcome == if rejection.Some? then Rejected(rejection.value) else Saved(dateSelected > now)
    ensures outcome.Rejected? ==>
      store.rows == old(store.rows) && store.balance == old(store.balance)
      && store.writes == old(store.writes) && store.nextId == old(store.nextId)
    ensures outcome.Saved? ==>
      var prev := FindById(old(store.rows), transactionId).value;
      var row := NewRow(prev.id, selectedIndex, transactionFromIndex, transactionToIndex,
                        dateSelected, now, parsedAmount.value, note);
      store.rows == ReplaceById(old(store.rows), row) && store.nextId == old(store.nextId)
      && store.balance == EditedRecord(old(store.balance), prev, row)
      && store.writes == old(store.writes) + EditWrites(old(store.ScreenBalance()), prev, row)
    ensures old(store.Consistent()) ==> store.Consistent()
  {
    var editModeData := FindById(store.rows, transactionId);
    var rejection := EditRejection(amount, parsedAmount, editModeData.Some?, selectedIndex,
                                   transactionFromIndex, transactionToIndex);
    if rejection.Some? {
      return Rejected(rejection.value);
    }
    var prev := editModeData.value;
    var transactionToSave := NewRow(prev.id, selectedIndex, transactionFromIndex, transactionToIndex,
                                    dateSelected, now, parsedAmount.value, note);
    SaveEdit(store, prev, transactionToSave);
    outcome := Saved(transactionToSave.isScheduled);
  }
}
