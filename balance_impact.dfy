/** The sign rule: how one transaction moves the account balances, and how
    that movement is undone (the pure helpers of the add-transaction screen). */
module BalanceImpact {
  import opened TransactionModel

  /** What a transaction of this type, these indices and this amount adds to
      account `k`: the reference statement of the sign rule. Expense takes the
      amount from `from`, Income adds it to `to`, Transfer does both, any
      other type moves nothing. */
  function Impact(kind: TxType, from: int, to: int, amount: real, k: int): real {
    match kind
    case Expense => if from == k then -amount else 0.0
    case Income => if to == k then amount else 0.0
    case Transfer => (if from == k then -amount else 0.0) + (if to == k then amount else 0.0)
    case Other(_) => 0.0
  }

  function TxImpact(t: Transaction, k: int): real {
    Impact(t.kind, t.from, t.to, t.amount, k)
  }

  /** Adds a signed amount to the account selected by `accountIndex`; any
      other index leaves the record as it is. */
  function UpdateBalanceForAccount(current: Balance, accountIndex: int, amount: real): (r: Balance)
    ensures SameMeta(r, current)
    ensures forall k :: IsAccount(k) ==>
      Field(r, k) == Field(current, k) + (if k == accountIndex then amount else 0.0)
    ensures !IsAccount(accountIndex) ==> r == current
  {
    match accountIndex
    case 0 => current.(bankBalance := current.bankBalance + amount)
    case 1 => current.(savingsBalance := current.savingsBalance + amount)
    case 2 => current.(cashBalance := current.cashBalance + amount)
    case 3 => current.(creditCardBalance := current.creditCardBalance + amount)
    case _ => current
  }

  /** Applies the effect of a transaction to the balance record. */
  function ApplyBalanceImpact(current: Balance, kind: TxType, from: int, to: int, amount: real): (r: Balance)
    ensures SameMeta(r, current)
    ensures forall k :: IsAccount(k) ==> Field(r, k) == Field(current, k) + Impact(kind, from, to, amount, k)
  {
    match kind
    case Expense => UpdateBalanceForAccount(current, from, -amount)
    case Income => UpdateBalanceForAccount(current, to, amount)
    case Transfer =>
      var afterFrom := UpdateBalanceForAccount(current, from, -amount);
      UpdateBalanceForAccount(afterFrom, to, amount)
    case Other(_) => current
  }

  /** Undoes the effect of a stored transaction; unknown types are ignored. */
  function ReverseBalanceImpact(current: Balance, oldTx: Transaction): (r: Balance)
    ensures SameMeta(r, current)
    ensures forall k :: IsAccount(k) ==> Field(r, k) == Field(current, k) - TxImpact(oldTx, k)
  {
    match oldTx.kind
    case Expense => UpdateBalanceForAccount(current, oldTx.from, oldTx.amount)
    case Income => UpdateBalanceForAccount(current, oldTx.to, -oldTx.amount)
    case Transfer =>
      var afterFrom := UpdateBalanceForAccount(current, oldTx.from, oldTx.amount);
      UpdateBalanceForAccount(afterFrom, oldTx.to, -oldTx.amount)
    case Other(_) => current
  }

  /** The sign rule case by case, on the named fields of the record. */
  lemma SignRule(b: Balance, kind: TxType, from: int, to: int, amount: real)
    requires IsAccount(from) && IsAccount(to)
    ensures kind.Expense? ==> Field(ApplyBalanceImpact(b, kind, from, to, amount), from) == Field(b, from) - amount
    ensures kind.Income? ==> Field(ApplyBalanceImpact(b, kind, from, to, amount), to) == Field(b, to) + amount
    ensures kind.Transfer? && from != to ==>
      Field(ApplyBalanceImpact(b, kind, from, to, amount), from) == Field(b, from) - amount
      && Field(ApplyBalanceImpact(b, kind, from, to, amount), to) == Field(b, to) + amount
    ensures kind.Other? ==> ApplyBalanceImpact(b, kind, from, to, amount) == b
    ensures forall k :: IsAccount(k) && k != from && k != to ==>
      Field(ApplyBalanceImpact(b, kind, from, to, amount), k) == Field(b, k)
  {
  }

  /** Reversing a transaction undoes applying it. */
  lemma ReverseUndoesApply(b: Balance, t: Transaction)
    ensures ReverseBalanceImpact(ApplyBalanceImpact(b, t.kind, t.from, t.to, t.amount), t) == b
  {
    var r := ReverseBalanceImpact(ApplyBalanceImpact(b, t.kind, t.from, t.to, t.amount), t);
    FieldsDetermine(r, b);
  }

  /** Applying a transaction again after reversing it restores the record. */
  lemma ApplyUndoesReverse(b: Balance, t: Transaction)
    ensures ApplyBalanceImpact(ReverseBalanceImpact(b, t), t.kind, t.from, t.to, t.amount) == b
  {
    var r := ApplyBalanceImpact(ReverseBalanceImpact(b, t), t.kind, t.from, t.to, t.amount);
    FieldsDetermine(r, b);
  }

  /** A transfer moves money between accounts: the four balances sum to the
      same total before and after, when both ends are accounts. */
  lemma TransferKeepsTotal(b: Balance, from: int, to: int, amount: real)
    requires IsAccount(from) && IsAccount(to)
    ensures var r := ApplyBalanceImpact(b, Transfer, from, to, amount);
      Field(r, 0) + Field(r, 1) + Field(r, 2) + Field(r, 3)
      == Field(b, 0) + Field(b, 1) + Field(b, 2) + Field(b, 3)
  {
    var r := ApplyBalanceImpact(b, Transfer, from, to, amount);
    assert Field(r, 0) == Field(b, 0) + Impact(Transfer, from, to, amount, 0);
    assert Field(r, 1) == Field(b, 1) + Impact(Transfer, from, to, amount, 1);
    assert Field(r, 2) == Field(b, 2) + Impact(Transfer, from, to, amount, 2);
    assert Field(r, 3) == Field(b, 3) + Impact(Transfer, from, to, amount, 3);
  }
}
