/** The reconciliation invariant between the balance record and the rows: each
    account balance is its opening balance plus the effect of every completed
    (`isScheduled = false`) row, each counted once. */
module Ledger {
  import opened TransactionModel
  import opened BalanceImpact
  import opened TransactionDao

  /** What a row has contributed to account `k`: its effect if it is completed,
      nothing while it is scheduled. */
  function Contribution(t: Transaction, k: int): real {
    if t.isScheduled then 0.0 else TxImpact(t, k)
  }

  /** The net effect of all completed rows on account `k`. */
  function AccountNet(rows: seq<Transaction>, k: int): real {
    if rows == [] then 0.0 else Contribution(rows[0], k) + AccountNet(rows[1..], k)
  }

  /** The balance record agrees with the rows, starting from `opening`. */
  ghost predicate Reconciled(b: Balance, opening: Balance, rows: seq<Transaction>) {
    SameMeta(b, opening)
    && forall k :: IsAccount(k) ==> Field(b, k) == Field(opening, k) + AccountNet(rows, k)
  }

  /** The opening balance that, with these rows, yields `b`. */
  function Opening(b: Balance, rows: seq<Transaction>): (r: Balance)
    ensures Reconciled(b, r, rows)
  {
    b.(bankBalance := b.bankBalance - AccountNet(rows, 0),
       savingsBalance := b.savingsBalance - AccountNet(rows, 1),
       cashBalance := b.cashBalance - AccountNet(rows, 2),
       creditCardBalance := b.creditCardBalance - AccountNet(rows, 3))
  }

  /** Inserting a row adds its contribution. */
  lemma {:induction false} NetAppend(rows: seq<Transaction>, t: Transaction, k: int)
    ensures AccountNet(rows + [t], k) == AccountNet(rows, k) + Contribution(t, k)
  {
    if rows == [] {
      assert rows + [t] == [t];
      assert [t][1..] == [];
    } else {
      assert (rows + [t])[0] == rows[0] && (rows + [t])[1..] == rows[1..] + [t];
      NetAppend(rows[1..], t, k);
    }
  }

  /** A table without the key is left as it is by an update. */
  lemma ReplaceAbsent(rows: seq<Transaction>, t: Transaction)
    requires forall r :: r in rows ==> r.id != t.id
    ensures ReplaceById(rows, t) == rows
  {
  }

  /** Replacing the row `prev` by `t` (same key) swaps their contributions. */
  lemma {:induction false} NetReplace(rows: seq<Transaction>, prev: Transaction, t: Transaction, k: int)
    requires UniqueIds(rows) && prev in rows && t.id == prev.id
    ensures AccountNet(ReplaceById(rows, t), k) == AccountNet(rows, k) - Contribution(prev, k) + Contribution(t, k)
  {
    UniqueIdsTail(rows);
    var r := ReplaceById(rows, t);
    assert r[1..] == ReplaceById(rows[1..], t);
    if rows[0].id == t.id {
      FoundIsUnique(rows, prev, 0);
      ReplaceAbsent(rows[1..], t);
    } else {
      NetReplace(rows[1..], prev, t, k);
    }
  }

  /** Deleting the row `prev` by its key removes its contribution. */
  lemma {:induction false} NetRemove(rows: seq<Transaction>, prev: Transaction, k: int)
    requires UniqueIds(rows) && prev in rows
    ensures AccountNet(RemoveById(rows, prev.id), k) == AccountNet(rows, k) - Contribution(prev, k)
  {
    UniqueIdsTail(rows);
    if rows[0].id == prev.id {
      FoundIsUnique(rows, prev, 0);
      RemoveAbsent(rows[1..], prev.id);
    } else {
      NetRemove(rows[1..], prev, k);
      assert RemoveById(rows, prev.id) == [rows[0]] + RemoveById(rows[1..], prev.id);
    }
  }

  lemma {:induction false} RemoveAbsent(rows: seq<Transaction>, id: int)
    requires forall r :: r in rows ==> r.id != id
    ensures RemoveById(rows, id) == rows
  {
    if rows != [] {
      assert forall r :: r in rows[1..] ==> r in rows;
      RemoveAbsent(rows[1..], id);
    }
  }

  /** The combined effect of a list of rows on account `k`, scheduled or not. */
  function ImpactSum(ds: seq<Transaction>, k: int): real {
    if ds == [] then 0.0 else TxImpact(ds[0], k) + ImpactSum(ds[1..], k)
  }

  /** Settling the due rows adds exactly their effects to the net. */
  lemma {:induction false} NetSettle(rows: seq<Transaction>, now: int, k: int)
    ensures AccountNet(MarkSettled(rows, now), k) == AccountNet(rows, k) + ImpactSum(DueScheduled(rows, now), k)
  {
    if rows != [] {
      var m := MarkSettled(rows, now);
      assert m[1..] == MarkSettled(rows[1..], now);
      NetSettle(rows[1..], now, k);
    }
  }

  /** The row's account indices name real accounts, for the ends its type uses. */
  predicate AccountsValid(t: Transaction) {
    match t.kind
    case Expense => IsAccount(t.from)
    case Income => IsAccount(t.to)
    case Transfer => IsAccount(t.from) && IsAccount(t.to)
    case Other(_) => true
  }

  /** The sum of the four account balances. */
  function AccountsTotal(b: Balance): real {
    Field(b, 0) + Field(b, 1) + Field(b, 2) + Field(b, 3)
  }

  /** Over the four accounts together, a completed row moves the signed value
      the total-balance query gives it: a transfer moves nothing overall. */
  lemma RowNetIsSignedAmount(t: Transaction)
    requires AccountsValid(t) && !t.isScheduled
    ensures Contribution(t, 0) + Contribution(t, 1) + Contribution(t, 2) + Contribution(t, 3) == SignedAmount(t)
  {
    match t.kind {
      case Expense =>
      case Income =>
      case Transfer =>
        assert TxImpact(t, 0) + TxImpact(t, 1) + TxImpact(t, 2) + TxImpact(t, 3) == 0.0;
      case Other(_) =>
    }
  }

  /** Summed over the accounts, the completed rows' net is the total-balance
      query, when exactly the rows dated no later than `now` are completed. */
  lemma {:induction false} NetMatchesTotalBalanceQuery(rows: seq<Transaction>, now: int)
    requires forall t :: t in rows ==> AccountsValid(t) && (t.isScheduled <==> t.timestamp > now)
    ensures AccountNet(rows, 0) + AccountNet(rows, 1) + AccountNet(rows, 2) + AccountNet(rows, 3)
      == TotalBalance(rows, now)
  {
    if rows != [] {
      assert forall t :: t in rows[1..] ==> t in rows;
      NetMatchesTotalBalanceQuery(rows[1..], now);
      if !rows[0].isScheduled {
        RowNetIsSignedAmount(rows[0]);
      }
    }
  }

  /** The balance record and the total-balance query agree: the change of the
      four accounts since the opening balance is what the query reports. */
  lemma ReconciledMatchesTotalBalanceQuery(b: Balance, opening: Balance, rows: seq<Transaction>, now: int)
    requires Reconciled(b, opening, rows)
    requires forall t :: t in rows ==> AccountsValid(t) && (t.isScheduled <==> t.timestamp > now)
    ensures AccountsTotal(b) == AccountsTotal(opening) + TotalBalance(rows, now)
  {
    NetMatchesTotalBalanceQuery(rows, now);
  }
}
