/** The history screen: every row, split into upcoming (dated after now,
    oldest first) and completed (the rest, newest first). Its delete-confirm
    handler is the home screen's, HomePage.ConfirmDelete. */
module TransactionHistory {
  import opened TransactionModel
  import opened TransactionLists

  /** The two lists the screen shows. */
  function HistoryLists(transactions: seq<Transaction>, now: int): (seq<Transaction>, seq<Transaction>) {
    var (upcoming, completed) := Partition(transactions, now);
    (SortAsc(upcoming), SortDesc(completed))
  }

  /** Every row is shown exactly once: the two lists together hold every row
      as many times as it occurs, the upcoming list only rows dated after now,
      oldest first, and the completed list only the others, newest first;
      rows sharing a timestamp keep their table order. */
  lemma HistoryListsSpec(transactions: seq<Transaction>, now: int)
    ensures var (upcoming, completed) := HistoryLists(transactions, now);
      multiset(upcoming) + multiset(completed) == multiset(transactions)
      && SortedAsc(upcoming) && SortedDesc(completed)
      && (forall t :: t in upcoming ==> t.timestamp > now)
      && (forall t :: t in completed ==> t.timestamp <= now)
      && (forall x :: WithTimestamp(upcoming, x) == WithTimestamp(Upcoming(transactions, now), x))
      && (forall x :: WithTimestamp(completed, x) == WithTimestamp(NotUpcoming(transactions, now), x))
  {
    PartitionIsSplit(transactions, now);
    SortKeepsRows(Upcoming(transactions, now));
    SortKeepsRows(NotUpcoming(transactions, now));
  }
}
