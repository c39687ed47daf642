/** The lists the home and history screens show: rows split on whether their
    date is after now, upcoming rows oldest first, completed rows newest
    first. */
module TransactionLists {
  import opened TransactionModel

  /** `timestamp.isAfter(now)`. */
  predicate IsAfter(t: Transaction, now: int) {
    t.timestamp > now
  }

  /** The rows dated after now, in their original order. */
  function Upcoming(rows: seq<Transaction>, now: int): (r: seq<Transaction>)
    ensures forall t :: t in r <==> t in rows && IsAfter(t, now)
    ensures forall t :: multiset(r)[t] == if IsAfter(t, now) then multiset(rows)[t] else 0
  {
    if rows == [] then []
    else if IsAfter(rows[0], now) then
      assert rows == [rows[0]] + rows[1..];
      [rows[0]] + Upcoming(rows[1..], now)
    else
      assert rows == [rows[0]] + rows[1..];
      Upcoming(rows[1..], now)
  }

  /** The rows not dated after now, in their original order. */
  function NotUpcoming(rows: seq<Transaction>, now: int): (r: seq<Transaction>)
    ensures forall t :: t in r <==> t in rows && !IsAfter(t, now)
    ensures forall t :: multiset(r)[t] == if IsAfter(t, now) then 0 else multiset(rows)[t]
  {
    if rows == [] then []
    else
      assert rows == [rows[0]] + rows[1..];
      if !IsAfter(rows[0], now) then [rows[0]] + NotUpcoming(rows[1..], now)
      else NotUpcoming(rows[1..], now)
  }

  /** `partition { it.timestamp.isAfter(now) }`: the upcoming rows and the rest. */
  function Partition(rows: seq<Transaction>, now: int): (seq<Transaction>, seq<Transaction>) {
    (Upcoming(rows, now), NotUpcoming(rows, now))
  }

  /** The two halves of the partition together hold every row, as many times
      as it occurs; no row is in both. */
  lemma {:induction false} PartitionIsSplit(rows: seq<Transaction>, now: int)
    ensures multiset(Partition(rows, now).0) + multiset(Partition(rows, now).1) == multiset(rows)
    ensures forall t :: !(t in Partition(rows, now).0 && t in Partition(rows, now).1)
  {
    if rows != [] {
      var x := rows[0];
      var u := Upcoming(rows[1..], now);
      var c := NotUpcoming(rows[1..], now);
      PartitionIsSplit(rows[1..], now);
      assert multiset(rows) == multiset{x} + multiset(rows[1..]) by {
        assert rows == [x] + rows[1..];
      }
      if IsAfter(x, now) {
        assert multiset([x] + u) == multiset{x} + multiset(u);
      } else {
        assert multiset([x] + c) == multiset{x} + multiset(c);
      }
    }
  }

  // ----- sorting by timestamp -----

  /** Oldest first: each row is no later than the next. */
  ghost predicate SortedAsc(s: seq<Transaction>) {
    forall i :: 0 <= i < |s| - 1 ==> s[i].timestamp <= s[i + 1].timestamp
  }

  /** Newest first: each row is no earlier than the next. */
  ghost predicate SortedDesc(s: seq<Transaction>) {
    forall i :: 0 <= i < |s| - 1 ==> s[i].timestamp >= s[i + 1].timestamp
  }

  /** The rows with timestamp `x`, in their order in `s`. */
  function WithTimestamp(s: seq<Transaction>, x: int): seq<Transaction> {
    if s == [] then []
    else (if s[0].timestamp == x then [s[0]] else []) + WithTimestamp(s[1..], x)
  }

  /** `t` and the rows of `s` as they come, filtered by timestamp. */
  lemma ConsWithTimestamp(t: Transaction, s: seq<Transaction>, x: int)
    ensures WithTimestamp([t] + s, x) == (if t.timestamp == x then [t] else []) + WithTimestamp(s, x)
  {
    assert ([t] + s)[0] == t && ([t] + s)[1..] == s;
  }

  /** Puts `t` before the first row of the sorted `s` that is not earlier
      than it, so that `t` stays ahead of rows with its own timestamp. */
  function InsertAsc(t: Transaction, s: seq<Transaction>): (r: seq<Transaction>)
    requires SortedAsc(s)
    ensures SortedAsc(r) && multiset(r) == multiset(s) + multiset{t}
    ensures |r| == |s| + 1 && (r[0] == t || (s != [] && r[0] == s[0]))
  {
    if s == [] then [t]
    else if t.timestamp <= s[0].timestamp then [t] + s
    else
      var rest := InsertAsc(t, s[1..]);
      assert s[0].timestamp <= rest[0].timestamp;
      assert s == [s[0]] + s[1..];
      assert multiset([s[0]] + rest) == multiset{s[0]} + multiset(rest);
      [s[0]] + rest
  }

  /** Inserting `t` behind the head `s[0]`, which is not tied with it, keeps
      the order of every group of tied rows. */
  lemma InsertKeepsTies(t: Transaction, s: seq<Transaction>, rest: seq<Transaction>)
    requires s != [] && t.timestamp != s[0].timestamp
    requires forall x :: WithTimestamp(rest, x) == WithTimestamp([t] + s[1..], x)
    ensures forall x :: WithTimestamp([s[0]] + rest, x) == WithTimestamp([t] + s, x)
  {
    forall x ensures WithTimestamp([s[0]] + rest, x) == WithTimestamp([t] + s, x) {
      InsertKeepsTiesAt(t, s, rest, x);
    }
  }

  lemma InsertKeepsTiesAt(t: Transaction, s: seq<Transaction>, rest: seq<Transaction>, x: int)
    requires s != [] && t.timestamp != s[0].timestamp
    requires WithTimestamp(rest, x) == WithTimestamp([t] + s[1..], x)
    ensures WithTimestamp([s[0]] + rest, x) == WithTimestamp([t] + s, x)
  {
    var head := if s[0].timestamp == x then [s[0]] else [];
    var mid := if t.timestamp == x then [t] else [];
    ConsWithTimestamp(s[0], rest, x);
    ConsWithTimestamp(t, s[1..], x);
    ConsWithTimestamp(t, s, x);
    assert WithTimestamp(s, x) == head + WithTimestamp(s[1..], x);
    assert head + mid == mid + head;
    calc {
      WithTimestamp([s[0]] + rest, x);
      head + (mid + WithTimestamp(s[1..], x));
      (head + mid) + WithTimestamp(s[1..], x);
      (mid + head) + WithTimestamp(s[1..], x);
      mid + (head + WithTimestamp(s[1..], x));
      WithTimestamp([t] + s, x);
    }
  }

  /** InsertAsc keeps every group of tied rows in order, `t` first. */
  lemma {:induction false} InsertAscKeepsTies(t: Transaction, s: seq<Transaction>)
    requires SortedAsc(s)
    ensures forall x :: WithTimestamp(InsertAsc(t, s), x) == WithTimestamp([t] + s, x)
  {
    if s != [] && !(t.timestamp <= s[0].timestamp) {
      InsertAscKeepsTies(t, s[1..]);
      InsertKeepsTies(t, s, InsertAsc(t, s[1..]));
    }
  }

  /** `sortedBy { it.timestamp }`: the same rows, oldest first, and rows with
      equal timestamps in their input order (the sort is stable). */
  function SortAsc(s: seq<Transaction>): (r: seq<Transaction>)
    ensures SortedAsc(r) && multiset(r) == multiset(s)
    ensures forall x :: WithTimestamp(r, x) == WithTimestamp(s, x)
  {
    if s == [] then []
    else
      assert s == [s[0]] + s[1..];
      var sortedRest := SortAsc(s[1..]);
      assert forall x :: WithTimestamp([s[0]] + sortedRest, x) == WithTimestamp(s, x) by {
        forall x ensures WithTimestamp([s[0]] + sortedRest, x) == WithTimestamp(s, x) {
          ConsWithTimestamp(s[0], sortedRest, x);
          ConsWithTimestamp(s[0], s[1..], x);
        }
      }
      InsertAscKeepsTies(s[0], sortedRest);
      InsertAsc(s[0], sortedRest)
  }

  /** Puts `t` before the first row of the sorted `s` that is not later than
      it, so that `t` stays ahead of rows with its own timestamp. */
  function InsertDesc(t: Transaction, s: seq<Transaction>): (r: seq<Transaction>)
    requires SortedDesc(s)
    ensures SortedDesc(r) && multiset(r) == multiset(s) + multiset{t}
    ensures |r| == |s| + 1 && (r[0] == t || (s != [] && r[0] == s[0]))
  {
    if s == [] then [t]
    else if t.timestamp >= s[0].timestamp then [t] + s
    else
      var rest := InsertDesc(t, s[1..]);
      assert s[0].timestamp >= rest[0].timestamp;
      assert s == [s[0]] + s[1..];
      assert multiset([s[0]] + rest) == multiset{s[0]} + multiset(rest);
      [s[0]] + rest
  }

  /** InsertDesc keeps every group of tied rows in order, `t` first. */
  lemma {:induction false} InsertDescKeepsTies(t: Transaction, s: seq<Transaction>)
    requires SortedDesc(s)
    ensures forall x :: WithTimestamp(InsertDesc(t, s), x) == WithTimestamp([t] + s, x)
  {
    if s != [] && !(t.timestamp >= s[0].timestamp) {
      InsertDescKeepsTies(t, s[1..]);
      InsertKeepsTies(t, s, InsertDesc(t, s[1..]));
    }
  }

  /** `sortedByDescending { it.timestamp }`: the same rows, newest first, and
      rows with equal timestamps in their input order (the sort is stable). */
  function SortDesc(s: seq<Transaction>): (r: seq<Transaction>)
    ensures SortedDesc(r) && multiset(r) == multiset(s)
    ensures forall x :: WithTimestamp(r, x) == WithTimestamp(s, x)
  {
    if s == [] then []
    else
      assert s == [s[0]] + s[1..];
      var sortedRest := SortDesc(s[1..]);
      assert forall x :: WithTimestamp([s[0]] + sortedRest, x) == WithTimestamp(s, x) by {
        forall x ensures WithTimestamp([s[0]] + sortedRest, x) == WithTimestamp(s, x) {
          ConsWithTimestamp(s[0], sortedRest, x);
          ConsWithTimestamp(s[0], s[1..], x);
        }
      }
      InsertDescKeepsTies(s[0], sortedRest);
      InsertDesc(s[0], sortedRest)
  }

  /** Two rows with the same timestamp keep their order: on the input
      [a, b] both sorts give [a, b]. */
  lemma SortKeepsTiedOrder(a: Transaction, b: Transaction)
    requires a != b && a.timestamp == b.timestamp
    ensures SortAsc([a, b]) == [a, b] && SortDesc([a, b]) == [a, b]
  {
    assert [a, b][1..] == [b];
    assert [b][1..] == [];
  }

  /** Sorting keeps exactly the rows it was given. */
  lemma SortKeepsRows(s: seq<Transaction>)
    ensures forall t :: t in SortAsc(s) <==> t in s
    ensures forall t :: t in SortDesc(s) <==> t in s
  {
    forall t
      ensures t in SortAsc(s) <==> t in s
      ensures t in SortDesc(s) <==> t in s
    {
      assert t in SortAsc(s) <==> t in multiset(SortAsc(s));
      assert t in SortDesc(s) <==> t in multiset(SortDesc(s));
      assert t in s <==> t in multiset(s);
    }
  }
}
