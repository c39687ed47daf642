/** The two records of the finance store: a transaction row and the single
    balance ("onboarding") record, plus the small wrappers the rest of the
    model uses. Amounts are exact reals and timestamps plain integers
    (milliseconds); `isAfter` on timestamps is `>`. */
module TransactionModel {

  datatype Option<+T> = None | Some(value: T) {
    function GetOr(default: T): T {
      match this
      case Some(v) => v
      case None => default
    }
  }

  /** A type name stored in a row that is none of the three the app writes. */
  type UnknownName = s: string | s != "Expense" && s != "Income" && s != "Transfer" witness ""

  /** The `type` column of a transaction row. The source stores a string and
      branches on it; the three names the app writes get their own case and
      every other string is `Other`. */
  datatype TxType = Expense | Income | Transfer | Other(name: UnknownName) {
    predicate Known() {
      !Other?
    }
  }

  /** The string stored in the `type` column. */
  function TypeName(t: TxType): string {
    match t
    case Expense => "Expense"
    case Income => "Income"
    case Transfer => "Transfer"
    case Other(n) => n
  }

  /** The dispatch `when (type) { "Expense" -> … "Income" -> … "Transfer" -> … }`. */
  function TypeOf(s: string): TxType {
    if s == "Expense" then Expense
    else if s == "Income" then Income
    else if s == "Transfer" then Transfer
    else Other(s)
  }

  /** Reading back the stored string gives the same type, and the other way round:
      the datatype loses nothing of the string column. */
  lemma TypeNameRoundTrip(t: TxType, s: string)
    ensures TypeOf(TypeName(t)) == t
    ensures TypeName(TypeOf(s)) == s
  {
    match t
    case Other(n) =>
      assert TypeName(t) == n;
    case _ =>
  }

  /** A transaction row. `from` and `to` are indices whose meaning depends on
      the type: Expense = (account, category), Income = (income category,
      account), Transfer = (account, account). -1 means "not selected". */
  datatype Transaction = Transaction(
    id: int,
    kind: TxType,
    from: int,
    to: int,
    timestamp: int,
    amount: real,
    note: string,
    isScheduled: bool)

  /** The single balance record (the source's OnboardingModel). */
  datatype Balance = Balance(
    id: int,
    preferredCurrencySymbol: string,
    bankBalance: real,
    cashBalance: real,
    savingsBalance: real,
    hasCreditCard: bool,
    creditCardBalance: real)

  /** The number of accounts; account indices are 0 (Bank), 1 (Savings),
      2 (Cash) and 3 (Card). */
  const AccountCount: int := 4

  predicate IsAccount(k: int) {
    0 <= k < AccountCount
  }

  /** The balance of account `k`, in the order of the account list. */
  function Field(b: Balance, k: int): real
    requires IsAccount(k)
  {
    if k == 0 then b.bankBalance
    else if k == 1 then b.savingsBalance
    else if k == 2 then b.cashBalance
    else b.creditCardBalance
  }

  /** The parts of the record that no balance operation touches. */
  predicate SameMeta(b: Balance, c: Balance) {
    b.id == c.id && b.preferredCurrencySymbol == c.preferredCurrencySymbol
    && b.hasCreditCard == c.hasCreditCard
  }

  /** Two balance records with the same untouched parts and the same four
      account balances are the same record. */
  lemma FieldsDetermine(b: Balance, c: Balance)
    requires SameMeta(b, c)
    requires forall k :: IsAccount(k) ==> Field(b, k) == Field(c, k)
    ensures b == c
  {
    assert Field(b, 0) == Field(c, 0);
    assert Field(b, 1) == Field(c, 1);
    assert Field(b, 2) == Field(c, 2);
    assert Field(b, 3) == Field(c, 3);
  }

  /** The record the screens show until the store has produced one. */
  const DefaultBalance: Balance := Balance(0, "$", 0.0, 0.0, 0.0, false, 0.0)
}
