/** The home screen's start-up sweep: scheduled rows whose time has come are
    marked completed one by one, their effects are folded into the balance
    record, and the record is written once at the end. */
module HomePageViewModel {
  import opened TransactionModel
  import opened BalanceImpact
  import opened TransactionDao
  import opened Ledger
  import opened Repository

  /** The balance after folding the effects of `ds` into `b`, first row first. */
  function SettleAll(b: Balance, ds: seq<Transaction>): Balance
    decreases |ds|
  {
    if ds == [] then b
    else SettleAll(ApplyBalanceImpact(b, ds[0].kind, ds[0].from, ds[0].to, ds[0].amount), ds[1..])
  }

  /** Folding the rows one by one moves each account by the rows' combined
      effect, and leaves the key, currency and card flag alone. */
  lemma {:induction false} SettleAllFields(b: Balance, ds: seq<Transaction>, k: int)
    requires IsAccount(k)
    ensures SameMeta(SettleAll(b, ds), b)
    ensures Field(SettleAll(b, ds), k) == Field(b, k) + ImpactSum(ds, k)
    decreases |ds|
  {
    if ds != [] {
      SettleAllFields(ApplyBalanceImpact(b, ds[0].kind, ds[0].from, ds[0].to, ds[0].amount), ds[1..], k);
    }
  }

  /** The row writes of a sweep: each due row saved with `isScheduled = false`,
      in the order the query returned them. */
  function SettleWrites(ds: seq<Transaction>): (r: seq<StoreWrite>)
    ensures |r| == |ds|
    ensures forall j :: 0 <= j < |ds| ==> r[j] == TransactionUpdated(ds[j].(isScheduled := false))
  {
    seq(|ds|, j requires 0 <= j < |ds| => TransactionUpdated(ds[j].(isScheduled := false)))
  }

  /** Folding one more row applies its effect to the fold so far. */
  lemma {:induction false} SettleAllSnoc(b: Balance, ds: seq<Transaction>, t: Transaction)
    ensures SettleAll(b, ds + [t]) == ApplyBalanceImpact(SettleAll(b, ds), t.kind, t.from, t.to, t.amount)
    decreases |ds|
  {
    if ds == [] {
      assert ds + [t] == [t];
      assert [t][1..] == [];
    } else {
      assert (ds + [t])[0] == ds[0] && (ds + [t])[1..] == ds[1..] + [t];
      SettleAllSnoc(ApplyBalanceImpact(b, ds[0].kind, ds[0].from, ds[0].to, ds[0].amount), ds[1..], t);
    }
  }

  lemma SettleWritesSnoc(ds: seq<Transaction>, t: Transaction)
    ensures SettleWrites(ds + [t]) == SettleWrites(ds) + [TransactionUpdated(t.(isScheduled := false))]
  {
    var l := SettleWrites(ds + [t]);
    var r := SettleWrites(ds) + [TransactionUpdated(t.(isScheduled := false))];
    assert forall j :: 0 <= j < |l| ==> l[j] == r[j];
  }

  /** A sweep keeps the record reconciled: the record gains exactly the
      effects that the rows gain by being marked completed. */
  lemma SweepPreservesReconciled(b: Balance, opening: Balance, rows: seq<Transaction>, now: int)
    requires Reconciled(b, opening, rows)
    ensures Reconciled(SettleAll(b, DueScheduled(rows, now)), opening, MarkSettled(rows, now))
  {
    var due := DueScheduled(rows, now);
    forall k | IsAccount(k)
      ensures AccountNet(MarkSettled(rows, now), k) == AccountNet(rows, k) + ImpactSum(due, k)
      ensures Field(SettleAll(b, due), k) == Field(b, k) + ImpactSum(due, k)
    {
      NetSettle(rows, now, k);
      SettleAllFields(b, due, k);
    }
    SettleAllFields(b, due, 0);
  }

  /** Sweeping twice at the same time is sweeping once: the second finds
      nothing due and so writes nothing. */
  lemma SweepIdempotent(rows: seq<Transaction>, now: int)
    ensures MarkSettled(MarkSettled(rows, now), now) == MarkSettled(rows, now)
    ensures DueScheduled(MarkSettled(rows, now), now) == []
  {
    NothingDueAfterSettling(rows, now);
    var once := MarkSettled(rows, now);
    var twice := MarkSettled(once, now);
    assert forall j :: 0 <= j < |once| ==> !Due(once[j], now);
    assert forall j :: 0 <= j < |once| ==> twice[j] == once[j];
  }

  /** The table after saving each of `ds` as completed, first row first. */
  function SettleRows(rows: seq<Transaction>, ds: seq<Transaction>): seq<Transaction>
    decreases |ds|
  {
    if ds == [] then rows
    else SettleRows(ReplaceById(rows, ds[0].(isScheduled := false)), ds[1..])
  }

  /** Saving one more row as completed updates the table saved so far. */
  lemma {:induction false} SettleRowsSnoc(rows: seq<Transaction>, ds: seq<Transaction>, t: Transaction)
    ensures SettleRows(rows, ds + [t]) == ReplaceById(SettleRows(rows, ds), t.(isScheduled := false))
    decreases |ds|
  {
    if ds == [] {
      assert ds + [t] == [t];
      assert [t][1..] == [];
    } else {
      assert (ds + [t])[0] == ds[0] && (ds + [t])[1..] == ds[1..] + [t];
      SettleRowsSnoc(ReplaceById(rows, ds[0].(isScheduled := false)), ds[1..], t);
    }
  }

  /** The rows part-way through a sweep: the rows whose keys are in `done`
      are due and saved as completed, every other row is as it was. */
  ghost predicate SettledSoFar(rows0: seq<Transaction>, current: seq<Transaction>, done: set<int>, now: int) {
    |current| == |rows0|
    && (forall j :: 0 <= j < |rows0| ==>
          current[j] == if rows0[j].id in done then rows0[j].(isScheduled := false) else rows0[j])
    && (forall j :: 0 <= j < |rows0| && rows0[j].id in done ==> Due(rows0[j], now))
  }

  /** Saving one more due row as completed extends the settled set by its key. */
  lemma SettleStep(rows0: seq<Transaction>, current: seq<Transaction>, done: set<int>, t: Transaction, now: int)
    requires UniqueIds(rows0) && t in rows0 && Due(t, now)
    requires SettledSoFar(rows0, current, done, now)
    ensures SettledSoFar(rows0, ReplaceById(current, t.(isScheduled := false)), done + {t.id}, now)
  {
    var next := ReplaceById(current, t.(isScheduled := false));
    forall j | 0 <= j < |rows0| && rows0[j].id == t.id
      ensures rows0[j] == t
    {
      FoundIsUnique(rows0, t, j);
    }
    forall j | 0 <= j < |rows0|
      ensures next[j] == if rows0[j].id in done + {t.id} then rows0[j].(isScheduled := false) else rows0[j]
    {
      assert current[j].id == rows0[j].id;
    }
  }

  /** Saving the due rows `ds` one by one settles exactly their keys. */
  lemma {:induction false} SettleRowsSettles(rows0: seq<Transaction>, current: seq<Transaction>, done: set<int>,
                                             ds: seq<Transaction>, now: int)
    requires UniqueIds(rows0) && SettledSoFar(rows0, current, done, now)
    requires forall t :: t in ds ==> t in rows0 && Due(t, now)
    ensures SettledSoFar(rows0, SettleRows(current, ds), done + (set t | t in ds :: t.id), now)
    decreases |ds|
  {
    if ds == [] {
      assert (set t | t in ds :: t.id) == {};
    } else {
      SettleStep(rows0, current, done, ds[0], now);
      assert forall t :: t in ds[1..] ==> t in ds;
      SettleRowsSettles(rows0, ReplaceById(current, ds[0].(isScheduled := false)), done + {ds[0].id}, ds[1..], now);
      assert done + {ds[0].id} + (set t | t in ds[1..] :: t.id) == done + (set t | t in ds :: t.id) by {
        assert forall t :: t in ds ==> t == ds[0] || t in ds[1..];
      }
    }
  }

  /** Saving every due row as completed, in query order, gives the settled
      table. */
  lemma SettleRowsIsMarkSettled(rows0: seq<Transaction>, now: int)
    requires UniqueIds(rows0)
    ensures SettleRows(rows0, DueScheduled(rows0, now)) == MarkSettled(rows0, now)
  {
    var due := DueScheduled(rows0, now);
    var done := set t | t in due :: t.id;
    assert SettledSoFar(rows0, rows0, {}, now);
    SettleRowsSettles(rows0, rows0, {}, due, now);
    assert {} + done == done;
    forall j | 0 <= j < |rows0| && Due(rows0[j], now)
      ensures rows0[j].id in done
    {
      assert rows0[j] in due;
    }
    SettledEveryDueRow(rows0, SettleRows(rows0, due), done, now);
  }

  /** Once every due row's key is settled, the table is the settled one. */
  lemma SettledEveryDueRow(rows0: seq<Transaction>, current: seq<Transaction>, done: set<int>, now: int)
    requires SettledSoFar(rows0, current, done, now)
    requires forall j :: 0 <= j < |rows0| && Due(rows0[j], now) ==> rows0[j].id in done
    ensures current == MarkSettled(rows0, now)
  {
    var settled := MarkSettled(rows0, now);
    assert forall j :: 0 <= j < |rows0| ==> current[j] == settled[j];
  }

  /** Replaying a sweep's row writes is saving the due rows one by one. */
  lemma {:induction false} ReplaySettleWrites(rows: seq<Transaction>, ds: seq<Transaction>)
    ensures ReplayRows(rows, SettleWrites(ds)) == SettleRows(rows, ds)
    decreases |ds|
  {
    if ds != [] {
      var w := SettleWrites(ds);
      assert w[1..] == SettleWrites(ds[1..]);
      ReplaySettleWrites(ReplaceById(rows, ds[0].(isScheduled := false)), ds[1..]);
    }
  }

  /** The sweep's log says what it did to the table: replaying its row writes
      against the table turns exactly the due rows into completed ones. */
  lemma SettleWritesSettleTable(rows: seq<Transaction>, now: int)
    requires UniqueIds(rows)
    ensures ReplayRows(rows, SettleWrites(DueScheduled(rows, now))) == MarkSettled(rows, now)
  {
    ReplaySettleWrites(rows, DueScheduled(rows, now));
    SettleRowsIsMarkSettled(rows, now);
  }

  /** One iteration's balance update: the sign rule written out on the
      record's accounts, the amount negated for the account it leaves. */
  method SettleRow(updatedOnboarding: Balance, transaction: Transaction) returns (r: Balance)
    ensures r == ApplyBalanceImpact(updatedOnboarding, transaction.kind, transaction.from, transaction.to, transaction.amount)
  {
    r := updatedOnboarding;
    match transaction.kind {
      case Expense =>
        r := UpdateBalanceForAccount(r, transaction.from, transaction.amount * -1.0);
      case Income =>
        r := UpdateBalanceForAccount(r, transaction.to, transaction.amount);
      case Transfer =>
        r := UpdateBalanceForAccount(r, transaction.from, transaction.amount * -1.0);
        r := UpdateBalanceForAccount(r, transaction.to, transaction.amount);
      case Other(_) =>
    }
  }

  lemma PrefixExtends(s: seq<Transaction>, i: int)
    requires 0 <= i < |s|
    ensures s[..i + 1] == s[..i] + [s[i]]
  {
  }

  /** The loop of the sweep: saves each due row as completed, in query order,
      and folds its effect into `start`. */
  method SettleDueRows(store: TransactionStore, dueTransactions: seq<Transaction>, start: Balance)
    returns (updatedOnboarding: Balance)
    requires store.WellFormed()
    modifies store`rows, store`writes
    ensures store.WellFormed()
    ensures updatedOnboarding == SettleAll(start, dueTransactions)
    ensures store.rows == SettleRows(old(store.rows), dueTransactions)
    ensures store.writes == old(store.writes) + SettleWrites(dueTransactions)
  {
    ghost var rows0 := store.rows;
    ghost var writes0 := store.writes;
    updatedOnboarding := start;
    assert dueTransactions[..0] == [];
    var i := 0;
    while i < |dueTransactions|
      invariant 0 <= i <= |dueTransactions|
      invariant store.WellFormed()
      invariant updatedOnboarding == SettleAll(start, dueTransactions[..i])
      invariant store.rows == SettleRows(rows0, dueTransactions[..i])
      invariant store.writes == writes0 + SettleWrites(dueTransactions[..i])
    {
      var transaction := dueTransactions[i];
      PrefixExtends(dueTransactions, i);
      SettleAllSnoc(start, dueTransactions[..i], transaction);
      SettleRowsSnoc(rows0, dueTransactions[..i], transaction);
      SettleWritesSnoc(dueTransactions[..i], transaction);
      updatedOnboarding := SettleRow(updatedOnboarding, transaction);
      var completedTransaction := transaction.(isScheduled := false);
      store.UpdateTransaction(completedTransaction);
      i := i + 1;
    }
    assert dueTransactions[..i] == dueTransactions;
  }

  /** `processDueScheduledTransactions`: when the due-rows query finds rows
      and a balance record exists, saves each due row as completed, folds its
      effect into a copy of the record (unknown types move nothing), and then
      writes the record once. Otherwise nothing is written. */
  method ProcessDueScheduledTransactions(store: TransactionStore, now: int)
    requires store.WellFormed()
    modifies store
    ensures store.WellFormed() && store.nextId == old(store.nextId)
    ensures var due := DueScheduled(old(store.rows), now);
      if due == [] || old(store.balance).None? then
        store.rows == old(store.rows) && store.balance == old(store.balance) && store.writes == old(store.writes)
      else
        var settled := SettleAll(old(store.balance).value, due);
        store.rows == MarkSettled(old(store.rows), now)
        && store.balance == Some(settled)
        && store.writes == old(store.writes) + SettleWrites(due) + [OnboardingUpdated(settled)]
    ensures old(store.Consistent()) ==> store.Consistent()
  {
    var dueTransactions := DueScheduled(store.rows, now);
    if dueTransactions == [] {
      return;
    }
    var currentOverallBalance := store.balance;
    if currentOverallBalance.None? {
      return;
    }
    if store.Consistent() {
      SweepPreservesReconciled(currentOverallBalance.value, store.opening, store.rows, now);
    }
    SettleAllFields(currentOverallBalance.value, dueTransactions, 0);
    SettleRowsIsMarkSettled(store.rows, now);
    var updatedOnboarding := SettleDueRows(store, dueTransactions, currentOverallBalance.value);
    store.UpdateOnboardingData(updatedOnboarding);
  }
}
