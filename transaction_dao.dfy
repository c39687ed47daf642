/** What the store's queries return, and what its row writes do to the table,
    as functions over the table's rows (in insertion order). */
module TransactionDao {
  import opened TransactionModel

  // ----- row writes (by primary key) -----

  /** No two rows share a primary key. */
  ghost predicate UniqueIds(rows: seq<Transaction>) {
    forall i, j :: 0 <= i < j < |rows| ==> rows[i].id != rows[j].id
  }

  /** `getTransactionById`: the row with this key, if any. */
  function FindById(rows: seq<Transaction>, id: int): (r: Option<Transaction>)
    ensures r.Some? ==> r.value in rows && r.value.id == id
    ensures r.None? <==> forall t :: t in rows ==> t.id != id
  {
    if rows == [] then None
    else if rows[0].id == id then Some(rows[0])
    else FindById(rows[1..], id)
  }

  /** `updateTransaction`: every row with the key of `t` is replaced by `t`. */
  function ReplaceById(rows: seq<Transaction>, t: Transaction): (r: seq<Transaction>)
    ensures |r| == |rows|
    ensures forall j :: 0 <= j < |rows| ==> r[j] == if rows[j].id == t.id then t else rows[j]
  {
    if rows == [] then []
    else [if rows[0].id == t.id then t else rows[0]] + ReplaceById(rows[1..], t)
  }

  /** `deleteTransaction`: every row with this key is removed; the others keep their order. */
  function RemoveById(rows: seq<Transaction>, id: int): (r: seq<Transaction>)
    ensures forall t :: t in r <==> t in rows && t.id != id
    ensures |r| <= |rows|
  {
    if rows == [] then []
    else if rows[0].id == id then RemoveById(rows[1..], id)
    else [rows[0]] + RemoveById(rows[1..], id)
  }

  /** In a table with unique keys, the row found by a key is the only one with it. */
  lemma {:induction false} FoundIsUnique(rows: seq<Transaction>, t: Transaction, j: int)
    requires UniqueIds(rows) && t in rows
    requires 0 <= j < |rows| && rows[j].id == t.id
    ensures rows[j] == t
  {
    var i :| 0 <= i < |rows| && rows[i] == t;
    assert i == j;
  }

  lemma {:induction false} UniqueIdsTail(rows: seq<Transaction>)
    requires UniqueIds(rows) && rows != []
    ensures UniqueIds(rows[1..])
    ensures forall t :: t in rows[1..] ==> t.id != rows[0].id
  {
    forall t | t in rows[1..] ensures t.id != rows[0].id {
      var i :| 0 <= i < |rows[1..]| && rows[1..][i] == t;
      assert rows[i + 1] == t;
    }
  }

  /** Replacing a row by one with the same key keeps the keys unique. */
  lemma ReplaceKeepsIds(rows: seq<Transaction>, t: Transaction)
    requires UniqueIds(rows)
    ensures UniqueIds(ReplaceById(rows, t))
    ensures forall j :: 0 <= j < |rows| ==> ReplaceById(rows, t)[j].id == rows[j].id
  {
  }

  /** Deleting rows keeps the keys unique. */
  lemma {:induction false} RemoveKeepsIds(rows: seq<Transaction>, id: int)
    requires UniqueIds(rows)
    ensures UniqueIds(RemoveById(rows, id))
  {
    if rows != [] {
      UniqueIdsTail(rows);
      RemoveKeepsIds(rows[1..], id);
      var rest := RemoveById(rows[1..], id);
      if rows[0].id != id {
        var r := [rows[0]] + rest;
        forall i, j | 0 <= i < j < |r| ensures r[i].id != r[j].id {
          if i == 0 {
            assert r[j] in rest;
          } else {
            assert r[i] == rest[i - 1] && r[j] == rest[j - 1];
          }
        }
      }
    }
  }

  // ----- the due-transactions query -----

  /** A row the sweeper settles: still scheduled, and its time has come. */
  predicate Due(t: Transaction, now: int) {
    t.isScheduled && t.timestamp <= now
  }

  /** `getCompletedScheduledTransactions(now)`: the rows with `isScheduled = 1
      AND timestamp <= now`, in table order. */
  function DueScheduled(rows: seq<Transaction>, now: int): (r: seq<Transaction>)
    ensures forall t :: t in r <==> t in rows && Due(t, now)
    ensures |r| <= |rows|
  {
    if rows == [] then []
    else if Due(rows[0], now) then [rows[0]] + DueScheduled(rows[1..], now)
    else DueScheduled(rows[1..], now)
  }

  /** Deleting by key drops every copy of a matching row and keeps every copy
      of the others. */
  lemma {:induction false} RemoveByIdCounts(rows: seq<Transaction>, id: int)
    ensures forall t :: multiset(RemoveById(rows, id))[t] == if t.id == id then 0 else multiset(rows)[t]
  {
    if rows != [] {
      assert rows == [rows[0]] + rows[1..];
      RemoveByIdCounts(rows[1..], id);
    }
  }

  /** The due query returns each due row as often as the table holds it. */
  lemma {:induction false} DueScheduledCounts(rows: seq<Transaction>, now: int)
    ensures forall t :: multiset(DueScheduled(rows, now))[t] == if Due(t, now) then multiset(rows)[t] else 0
  {
    if rows != [] {
      assert rows == [rows[0]] + rows[1..];
      DueScheduledCounts(rows[1..], now);
    }
  }

  // ----- aggregate queries -----

  /** `IFNULL(SUM(amount), 0)` over the rows a filter keeps. */
  function SumWhere(rows: seq<Transaction>, keep: Transaction -> bool): real {
    if rows == [] then 0.0
    else (if keep(rows[0]) then rows[0].amount else 0.0) + SumWhere(rows[1..], keep)
  }

  predicate InRange(t: Transaction, startMillis: int, endMillis: int) {
    startMillis <= t.timestamp <= endMillis
  }

  /** `getCategorySpendingInDateRange`: Expense rows of this category (`to`)
      inside the closed range. */
  function CategorySpendingInDateRange(rows: seq<Transaction>, categoryIndex: int, startMillis: int, endMillis: int): real {
    SumWhere(rows, (t: Transaction) => t.kind == Expense && t.to == categoryIndex && InRange(t, startMillis, endMillis))
  }

  /** `getCategoryIncomeInDateRange`: Income rows of this income category
      (`from`) inside the closed range. */
  function CategoryIncomeInDateRange(rows: seq<Transaction>, categoryIndex: int, startMillis: int, endMillis: int): real {
    SumWhere(rows, (t: Transaction) => t.kind == Income && t.from == categoryIndex && InRange(t, startMillis, endMillis))
  }

  /** `getOverallInDateRange`: rows whose stored type string equals `category`
      inside the closed range. */
  function OverallInDateRange(rows: seq<Transaction>, category: string, startMillis: int, endMillis: int): real {
    SumWhere(rows, (t: Transaction) => TypeName(t.kind) == category && InRange(t, startMillis, endMillis))
  }

  /** The signed value `getTotalBalance` gives a row. */
  function SignedAmount(t: Transaction): real {
    match t.kind
    case Income => t.amount
    case Expense => -t.amount
    case _ => 0.0
  }

  /** `getTotalBalance`: Income counts +, Expense −, anything else 0, over the
      rows dated no later than now. */
  function TotalBalance(rows: seq<Transaction>, now: int): real {
    if rows == [] then 0.0
    else (if rows[0].timestamp <= now then SignedAmount(rows[0]) else 0.0) + TotalBalance(rows[1..], now)
  }

  // ----- properties of the queries -----

  predicate PositiveAmounts(rows: seq<Transaction>) {
    forall t :: t in rows ==> t.amount > 0.0
  }

  /** A sum over two tables is the sum of the sums. */
  lemma {:induction false} SumAppend(a: seq<Transaction>, b: seq<Transaction>, keep: Transaction -> bool)
    ensures SumWhere(a + b, keep) == SumWhere(a, keep) + SumWhere(b, keep)
  {
    if a == [] {
      assert a + b == b;
    } else {
      assert (a + b)[0] == a[0] && (a + b)[1..] == a[1..] + b;
      SumAppend(a[1..], b, keep);
    }
  }

  /** With positive amounts, a sum is 0 exactly when no row matches (the
      `IFNULL(…, 0)` case), and otherwise positive. */
  lemma {:induction false} SumZeroIffNoMatch(rows: seq<Transaction>, keep: Transaction -> bool)
    requires PositiveAmounts(rows)
    ensures SumWhere(rows, keep) >= 0.0
    ensures SumWhere(rows, keep) == 0.0 <==> forall t :: t in rows ==> !keep(t)
  {
    if rows != [] {
      assert forall t :: t in rows[1..] ==> t in rows;
      SumZeroIffNoMatch(rows[1..], keep);
    }
  }

  /** Sums with filters that split one another's rows add up. */
  lemma {:induction false} SumSplit(rows: seq<Transaction>, keep: Transaction -> bool, a: Transaction -> bool, b: Transaction -> bool)
    requires forall t :: t in rows ==> (keep(t) <==> a(t) || b(t)) && !(a(t) && b(t))
    ensures SumWhere(rows, keep) == SumWhere(rows, a) + SumWhere(rows, b)
  {
    if rows != [] {
      assert forall t :: t in rows[1..] ==> t in rows;
      SumSplit(rows[1..], keep, a, b);
    }
  }

  /** The spending of a range is the spending of its two halves. */
  lemma CategorySpendingSplits(rows: seq<Transaction>, categoryIndex: int, startMillis: int, mid: int, endMillis: int)
    requires startMillis <= mid < endMillis
    ensures CategorySpendingInDateRange(rows, categoryIndex, startMillis, endMillis)
      == CategorySpendingInDateRange(rows, categoryIndex, startMillis, mid)
       + CategorySpendingInDateRange(rows, categoryIndex, mid + 1, endMillis)
  {
    SumSplit(rows,
      (t: Transaction) => t.kind == Expense && t.to == categoryIndex && InRange(t, startMillis, endMillis),
      (t: Transaction) => t.kind == Expense && t.to == categoryIndex && InRange(t, startMillis, mid),
      (t: Transaction) => t.kind == Expense && t.to == categoryIndex && InRange(t, mid + 1, endMillis));
  }

  /** The same split for income. */
  lemma CategoryIncomeSplits(rows: seq<Transaction>, categoryIndex: int, startMillis: int, mid: int, endMillis: int)
    requires startMillis <= mid < endMillis
    ensures CategoryIncomeInDateRange(rows, categoryIndex, startMillis, endMillis)
      == CategoryIncomeInDateRange(rows, categoryIndex, startMillis, mid)
       + CategoryIncomeInDateRange(rows, categoryIndex, mid + 1, endMillis)
  {
    SumSplit(rows,
      (t: Transaction) => t.kind == Income && t.from == categoryIndex && InRange(t, startMillis, endMillis),
      (t: Transaction) => t.kind == Income && t.from == categoryIndex && InRange(t, startMillis, mid),
      (t: Transaction) => t.kind == Income && t.from == categoryIndex && InRange(t, mid + 1, endMillis));
  }

  /** With positive amounts, a category's spending is 0 exactly when it has no
      Expense row in the range. */
  lemma CategorySpendingZero(rows: seq<Transaction>, categoryIndex: int, startMillis: int, endMillis: int)
    requires PositiveAmounts(rows)
    ensures CategorySpendingInDateRange(rows, categoryIndex, startMillis, endMillis) == 0.0
      <==> forall t :: t in rows ==> !(t.kind == Expense && t.to == categoryIndex && InRange(t, startMillis, endMillis))
  {
    SumZeroIffNoMatch(rows, (t: Transaction) => t.kind == Expense && t.to == categoryIndex && InRange(t, startMillis, endMillis));
  }

  /** With positive amounts, a category's income is 0 exactly when it has no
      Income row in the range. */
  lemma CategoryIncomeZero(rows: seq<Transaction>, categoryIndex: int, startMillis: int, endMillis: int)
    requires PositiveAmounts(rows)
    ensures CategoryIncomeInDateRange(rows, categoryIndex, startMillis, endMillis) == 0.0
      <==> forall t :: t in rows ==> !(t.kind == Income && t.from == categoryIndex && InRange(t, startMillis, endMillis))
  {
    SumZeroIffNoMatch(rows, (t: Transaction) => t.kind == Income && t.from == categoryIndex && InRange(t, startMillis, endMillis));
  }

  /** Two queries agree: when no row is older than `startMillis`, the overall
      income of the range minus its overall expense is the total-balance
      query evaluated at the range's end. */
  lemma {:induction false} OverallNetIsTotalBalance(rows: seq<Transaction>, startMillis: int, endMillis: int)
    requires forall t :: t in rows ==> startMillis <= t.timestamp
    ensures OverallInDateRange(rows, "Income", startMillis, endMillis)
      - OverallInDateRange(rows, "Expense", startMillis, endMillis)
      == TotalBalance(rows, endMillis)
  {
    if rows != [] {
      assert forall t :: t in rows[1..] ==> t in rows;
      OverallNetIsTotalBalance(rows[1..], startMillis, endMillis);
      var t := rows[0];
      match t.kind
      case Other(n) =>
        assert TypeName(t.kind) == n;
      case _ =>
    }
  }

  /** Settling the due rows leaves nothing due: a second sweep at the same
      time finds no rows. */
  lemma {:induction false} NothingDueAfterSettling(rows: seq<Transaction>, now: int)
    ensures DueScheduled(MarkSettled(rows, now), now) == []
  {
    if rows != [] {
      NothingDueAfterSettling(rows[1..], now);
    }
  }

  /** The rows after a sweep: every due row with `isScheduled = false`, all
      other fields and all other rows unchanged. */
  function MarkSettled(rows: seq<Transaction>, now: int): (r: seq<Transaction>)
    ensures |r| == |rows|
    ensures forall j :: 0 <= j < |rows| ==>
      r[j] == if Due(rows[j], now) then rows[j].(isScheduled := false) else rows[j]
  {
    if rows == [] then []
    else [if Due(rows[0], now) then rows[0].(isScheduled := false) else rows[0]] + MarkSettled(rows[1..], now)
  }
}
