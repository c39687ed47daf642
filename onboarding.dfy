/** The onboarding screen's state holder: the opening balances are typed in,
    filtered and validated as the user types, validated again on submit, and
    stored as the balance record. */
module Onboarding {
  import opened TransactionModel
  import opened Repository

  // ----- number text -----

  predicate IsDigit(c: char) {
    '0' <= c <= '9'
  }

  /** The characters the input filter lets through. */
  predicate IsNumberChar(c: char) {
    IsDigit(c) || c == '.'
  }

  function DotCount(s: string): nat {
    if s == [] then 0 else (if s[0] == '.' then 1 else 0) + DotCount(s[1..])
  }

  lemma {:induction false} DotCountAppend(a: string, b: string)
    ensures DotCount(a + b) == DotCount(a) + DotCount(b)
  {
    if a == [] {
      assert a + b == b;
    } else {
      assert (a + b)[0] == a[0] && (a + b)[1..] == a[1..] + b;
      DotCountAppend(a[1..], b);
    }
  }

  lemma {:induction false} NoDotWhenCountZero(s: string)
    requires DotCount(s) == 0
    ensures forall j :: 0 <= j < |s| ==> s[j] != '.'
  {
    if s != [] {
      NoDotWhenCountZero(s[1..]);
      assert forall j :: 1 <= j < |s| ==> s[j] == s[1..][j - 1];
    }
  }

  /** `value.filter { it.isDigit() || it == '.' }`. */
  function FilterInput(value: string): (r: string)
    ensures forall j :: 0 <= j < |r| ==> IsNumberChar(r[j])
    ensures |r| <= |value|
  {
    if value == [] then []
    else if IsNumberChar(value[0]) then [value[0]] + FilterInput(value[1..])
    else FilterInput(value[1..])
  }

  /** Filtering text that only holds digits and dots leaves it as it is; in
      particular filtering twice is filtering once. */
  lemma {:induction false} FilterKeepsNumberText(value: string)
    requires forall j :: 0 <= j < |value| ==> IsNumberChar(value[j])
    ensures FilterInput(value) == value
  {
    if value != [] {
      assert forall j :: 0 <= j < |value[1..]| ==> value[1..][j] == value[j + 1];
      FilterKeepsNumberText(value[1..]);
    }
  }

  /** What the screen keeps in an input: only digits and dots, and at most
      one dot. */
  predicate WellFormedInput(s: string) {
    (forall j :: 0 <= j < |s| ==> IsNumberChar(s[j])) && DotCount(s) <= 1
  }

  /** Text that reads as a number: digits and at most one dot, with at least
      one digit. */
  predicate IsNumberText(s: string) {
    WellFormedInput(s) && exists j :: 0 <= j < |s| && IsDigit(s[j])
  }

  function DigitValue(c: char): nat
    requires IsDigit(c)
  {
    c as int - '0' as int
  }

  /** The value of a string of digits. */
  function IntegerValue(ds: string): nat
    requires forall j :: 0 <= j < |ds| ==> IsDigit(ds[j])
  {
    if ds == [] then 0 else IntegerValue(ds[..|ds| - 1]) * 10 + DigitValue(ds[|ds| - 1])
  }

  /** The value of the digits after the decimal point. */
  function FractionValue(ds: string): (r: real)
    requires forall j :: 0 <= j < |ds| ==> IsDigit(ds[j])
    ensures 0.0 <= r < 1.0
  {
    if ds == [] then 0.0 else (DigitValue(ds[0]) as real + FractionValue(ds[1..])) / 10.0
  }

  /** The index of the first `c` in `s`, or the length when there is none:
      where the number text splits at its dot and a message at a line break. */
  function IndexOf(s: string, c: char): (i: nat)
    ensures i <= |s|
    ensures i < |s| ==> s[i] == c
    ensures forall j :: 0 <= j < i ==> s[j] != c
  {
    if s == [] then 0 else if s[0] == c then 0 else 1 + IndexOf(s[1..], c)
  }

  /** `toDoubleOrNull` on the text the input filter lets through: a number
      exactly when there is at least one digit and at most one dot. */
  function ParseNumber(s: string): (r: Option<real>)
    ensures r.Some? <==> IsNumberText(s)
    ensures r.Some? ==> r.value >= 0.0
  {
    if !IsNumberText(s) then None
    else
      var i := IndexOf(s, '.');
      var whole := s[..i];
      assert forall j :: 0 <= j < |whole| ==> IsDigit(whole[j]);
      if i == |s| then Some(IntegerValue(whole) as real)
      else
        var fraction := s[i + 1..];
        assert s == whole + ([s[i]] + fraction);
        DotCountAppend(whole, [s[i]] + fraction);
        DotCountAppend([s[i]], fraction);
        NoDotWhenCountZero(fraction);
        Some(IntegerValue(whole) as real + FractionValue(fraction))
  }

  /** Digits with no dot read as their integer value. */
  lemma WholeNumberValue(s: string)
    requires s != [] && forall j :: 0 <= j < |s| ==> IsDigit(s[j])
    ensures ParseNumber(s) == Some(IntegerValue(s) as real)
  {
    assert IndexOf(s, '.') == |s|;
    assert s[..|s|] == s;
    if DotCount(s) != 0 {
      NoDotFromDigits(s);
    }
  }

  lemma {:induction false} NoDotFromDigits(s: string)
    requires forall j :: 0 <= j < |s| ==> IsDigit(s[j])
    ensures DotCount(s) == 0
  {
    if s != [] {
      assert forall j :: 0 <= j < |s[1..]| ==> s[1..][j] == s[j + 1];
      NoDotFromDigits(s[1..]);
    }
  }

  /** The parser reads the digits before the dot as the whole part and those
      after it as the fraction: "12.5" is 12.5, ".5" is 0.5 and "7." is 7. */
  lemma ParseExamples()
    ensures ParseNumber("12.5") == Some(12.5)
    ensures ParseNumber(".5") == Some(0.5)
    ensures ParseNumber("7.") == Some(7.0)
  {
    assert IsDigit("12.5"[0]);
    assert IndexOf("12.5", '.') == 2;
    assert "12.5"[..2] == "12" && "12.5"[3..] == "5";
    assert "12"[..1] == "1" && "1"[..0] == [];
    assert IntegerValue("1") == 1;
    assert IntegerValue("12") == 12;
    assert "5"[1..] == [];
    assert FractionValue("5") == 0.5;
    assert DotCount("12.5") == 1 by {
      assert "12.5"[1..] == "2.5" && "2.5"[1..] == ".5" && ".5"[1..] == "5" && "5"[1..] == [];
    }
    assert IsDigit(".5"[1]);
    assert IndexOf(".5", '.') == 0;
    assert ".5"[..0] == [] && ".5"[1..] == "5";
    assert IsDigit("7."[0]);
    assert IndexOf("7.", '.') == 1;
    assert "7."[..1] == "7" && "7."[2..] == [];
    assert "7"[..0] == [];
  }

  /** A lone dot is the only non-empty input the screen keeps that is not a
      number: any other kept input with no digit would need a second dot. */
  lemma {:induction false} LoneDotIsTheOnlyNonNumber(s: string)
    requires WellFormedInput(s) && s != []
    ensures ParseNumber(s).None? <==> s == "."
  {
    if ParseNumber(s).None? {
      assert forall j :: 0 <= j < |s| ==> s[j] == '.';
      if |s| > 1 {
        assert s == [s[0]] + [s[1]] + s[2..];
        DotCountAppend([s[0]] + [s[1]], s[2..]);
        DotCountAppend([s[0]], [s[1]]);
      }
    }
    if s == "." {
      assert !IsDigit(s[0]);
    }
  }

  // ----- validation -----

  datatype BalanceField = Bank | Cash | Savings | CreditCard

  /** `validateBalanceInput`: the input unchanged, with "Cannot be empty." for
      an empty required input (the credit card one is required only with a
      card), "Invalid number." for text that does not read as a number, and no
      error otherwise. */
  function ValidateBalanceInput(input: string, field: BalanceField, hasCreditCard: bool): (r: (string, Option<string>))
    ensures r.0 == input
    ensures r.1.None? <==> if input == "" then field == CreditCard && !hasCreditCard else ParseNumber(input).Some?
  {
    var error :=
      if input == "" then
        (if field == CreditCard && !hasCreditCard then None else Some("Cannot be empty."))
      else if ParseNumber(input).None? then Some("Invalid number.")
      else None;
    (input, error)
  }

  /** `validateOnSubmit`: emptiness first, then whether the text reads as a
      number, each message prefixed by the field's name. */
  function ValidateOnSubmit(input: string, fieldName: string): (r: Option<string>)
    ensures r.None? <==> ParseNumber(input).Some?
    ensures input == "" ==> r == Some(fieldName + " cannot be empty.")
  {
    if input == "" then Some(fieldName + " cannot be empty.")
    else if ParseNumber(input).None? then Some(fieldName + " must be a valid number.")
    else None
  }

  /** The field check as the user types and the check on submit agree on
      whether a required input is acceptable. */
  lemma FieldCheckAgreesWithSubmit(input: string, field: BalanceField, hasCreditCard: bool, fieldName: string)
    requires field != CreditCard || hasCreditCard
    ensures ValidateBalanceInput(input, field, hasCreditCard).1.None? <==> ValidateOnSubmit(input, fieldName).None?
  {
  }

  // ----- the screen state -----

  datatype UiState = UiState(
    preferredCurrencySymbol: string,
    bankBalanceInput: string,
    cashBalanceInput: string,
    savingsBalanceInput: string,
    hasCreditCard: bool,
    creditCardBalanceInput: string,
    isSaving: bool,
    showSuccessMessage: bool,
    errorMessage: Option<string>,
    bankBalanceError: Option<string>,
    cashBalanceError: Option<string>,
    savingsBalanceError: Option<string>,
    creditCardBalanceError: Option<string>)

  const InitialUiState := UiState("$", "", "", "", false, "", false, false, None, None, None, None, None)

  function InputOf(s: UiState, field: BalanceField): string {
    match field
    case Bank => s.bankBalanceInput
    case Cash => s.cashBalanceInput
    case Savings => s.savingsBalanceInput
    case CreditCard => s.creditCardBalanceInput
  }

  function ErrorOf(s: UiState, field: BalanceField): Option<string> {
    match field
    case Bank => s.bankBalanceError
    case Cash => s.cashBalanceError
    case Savings => s.savingsBalanceError
    case CreditCard => s.creditCardBalanceError
  }

  /** The fields other than the four inputs and their errors are equal. */
  predicate SameSettings(s: UiState, t: UiState) {
    s.preferredCurrencySymbol == t.preferredCurrencySymbol && s.hasCreditCard == t.hasCreditCard
    && s.isSaving == t.isSaving && s.showSuccessMessage == t.showSuccessMessage
    && s.errorMessage == t.errorMessage
  }

  /** The line holds no line break. */
  predicate NoLineBreak(l: string) {
    forall k :: 0 <= k < |l| ==> l[k] != '\n'
  }

  /** `split("\n")`: the pieces between line breaks, at least one. */
  function SplitLines(s: string): (r: seq<string>)
    ensures r != []
    decreases |s|
  {
    var i := IndexOf(s, '\n');
    if i == |s| then [s] else [s[..i]] + SplitLines(s[i + 1..])
  }

  /** In `l + "\n" + rest` with no break in `l`, the first break ends `l`. */
  lemma FirstBreakEndsLine(l: string, rest: string)
    requires NoLineBreak(l)
    ensures IndexOf(l + "\n" + rest, '\n') == |l|
    ensures (l + "\n" + rest)[..|l|] == l && (l + "\n" + rest)[|l| + 1..] == rest
  {
    var s := l + "\n" + rest;
    var i := IndexOf(s, '\n');
    assert s[|l|] == '\n';
  }

  /** A line with no break splits into itself. */
  lemma NoBreakIsOneLine(l: string)
    requires NoLineBreak(l)
    ensures SplitLines(l) == [l]
  {
    assert l[..|l|] == l;
  }

  /** No line of the list holds a line break. */
  predicate NoLineBreaks(lines: seq<string>) {
    forall j :: 0 <= j < |lines| ==> NoLineBreak(lines[j])
  }

  /** Splitting a break-free line followed by a break and more text gives
      the line, then the pieces of the rest. */
  lemma SplitAfterLine(l: string, rest: string)
    requires NoLineBreak(l)
    ensures SplitLines(l + "\n" + rest) == [l] + SplitLines(rest)
  {
    FirstBreakEndsLine(l, rest);
  }

  /** `joinToString("\n")`. Lines without breaks of their own can be read
      back by splitting at the breaks: joining loses no line. */
  function JoinLines(lines: seq<string>): (r: string)
    ensures lines == [] ==> r == ""
    ensures |lines| == 1 ==> r == lines[0]
    ensures lines != [] && NoLineBreaks(lines) ==> SplitLines(r) == lines
  {
    if lines == [] then ""
    else if |lines| == 1 then
      if NoLineBreak(lines[0]) then
        NoBreakIsOneLine(lines[0]);
        lines[0]
      else
        lines[0]
    else
      var rest := JoinLines(lines[1..]);
      if NoLineBreaks(lines) then
        assert NoLineBreaks(lines[1..]) by {
          forall j | 0 <= j < |lines[1..]| ensures NoLineBreak(lines[1..][j]) {
            assert lines[1..][j] == lines[j + 1];
          }
        }
        SplitAfterLine(lines[0], rest);
        assert lines == [lines[0]] + lines[1..];
        lines[0] + "\n" + rest
      else
        lines[0] + "\n" + rest
  }

  /** The submit errors, in order: bank, cash, savings, then the credit card
      only when the user has a card. */
  function SubmitErrors(s: UiState): (r: seq<string>)
    ensures r == [] <==>
      ParseNumber(s.bankBalanceInput).Some? && ParseNumber(s.cashBalanceInput).Some?
      && ParseNumber(s.savingsBalanceInput).Some?
      && (s.hasCreditCard ==> ParseNumber(s.creditCardBalanceInput).Some?)
    ensures |r| <= 4
  {
    var bankError := ValidateOnSubmit(s.bankBalanceInput, "Bank balance");
    var cashError := ValidateOnSubmit(s.cashBalanceInput, "Cash balance");
    var savingsError := ValidateOnSubmit(s.savingsBalanceInput, "Savings balance");
    var creditCardError := if s.hasCreditCard then ValidateOnSubmit(s.creditCardBalanceInput, "Credit card balance") else None;
    (if bankError.Some? then [bankError.value] else [])
    + (if cashError.Some? then [cashError.value] else [])
    + (if savingsError.Some? then [savingsError.value] else [])
    + (if creditCardError.Some? then [creditCardError.value] else [])
  }

  /** The record onboarding stores: key 0, the inputs read as numbers, and
      the credit card balance stored negated as a debt, or 0 without a card. */
  function OnboardingRecord(s: UiState): (r: Balance)
    requires SubmitErrors(s) == []
    ensures r.id == 0 && r.preferredCurrencySymbol == s.preferredCurrencySymbol && r.hasCreditCard == s.hasCreditCard
    ensures r.bankBalance == ParseNumber(s.bankBalanceInput).value
    ensures r.cashBalance == ParseNumber(s.cashBalanceInput).value
    ensures r.savingsBalance == ParseNumber(s.savingsBalanceInput).value
    ensures r.creditCardBalance == if s.hasCreditCard then -ParseNumber(s.creditCardBalanceInput).value else 0.0
    ensures r.bankBalance >= 0.0 && r.cashBalance >= 0.0 && r.savingsBalance >= 0.0 && r.creditCardBalance <= 0.0
  {
    var creditCardBalance := if s.hasCreditCard then ParseNumber(s.creditCardBalanceInput).value else 0.0;
    Balance(0, s.preferredCurrencySymbol, ParseNumber(s.bankBalanceInput).value, ParseNumber(s.cashBalanceInput).value,
            ParseNumber(s.savingsBalanceInput).value, s.hasCreditCard, creditCardBalance * -1.0)
  }

  /** The four inputs are equal. */
  predicate SameInputs(s: UiState, t: UiState) {
    s.bankBalanceInput == t.bankBalanceInput && s.cashBalanceInput == t.cashBalanceInput
    && s.savingsBalanceInput == t.savingsBalanceInput && s.creditCardBalanceInput == t.creditCardBalanceInput
  }

  /** The error a field shows after submit: the field check, and none for
      the credit card input when the user has no card. */
  function SubmitFieldError(s: UiState, field: BalanceField): Option<string> {
    if field == CreditCard && !s.hasCreditCard then None
    else ValidateBalanceInput(InputOf(s, field), field, s.hasCreditCard).1
  }

  /** The state after submit's field checks: each field's error set, all
      else as it was. */
  function WithFieldErrors(s: UiState): (r: UiState)
    ensures SameInputs(r, s) && SameSettings(r, s)
    ensures forall f :: ErrorOf(r, f) == SubmitFieldError(s, f)
  {
    s.(bankBalanceError := SubmitFieldError(s, Bank), cashBalanceError := SubmitFieldError(s, Cash),
       savingsBalanceError := SubmitFieldError(s, Savings), creditCardBalanceError := SubmitFieldError(s, CreditCard))
  }

  /** The field checks read only the inputs and the card flag. */
  lemma SameInputsSameFieldErrors(s: UiState, t: UiState)
    requires SameInputs(s, t) && s.hasCreditCard == t.hasCreditCard
    ensures forall f :: SubmitFieldError(s, f) == SubmitFieldError(t, f)
  {
    forall f ensures SubmitFieldError(s, f) == SubmitFieldError(t, f) {
      assert InputOf(s, f) == InputOf(t, f);
    }
  }

  /** After submit a field shows an error exactly when it contributes one to
      the summary. */
  lemma {:induction false} FieldErrorsMatchSummary(s: UiState)
    ensures SubmitErrors(s) == [] <==> forall f :: SubmitFieldError(s, f).None?
  {
    if SubmitErrors(s) == [] {
      forall f ensures SubmitFieldError(s, f).None? {
        if f != CreditCard || s.hasCreditCard {
          FieldCheckAgreesWithSubmit(InputOf(s, f), f, s.hasCreditCard, "");
        }
      }
    } else {
      var f: BalanceField;
      if ParseNumber(s.bankBalanceInput).None? { f := Bank; }
      else if ParseNumber(s.cashBalanceInput).None? { f := Cash; }
      else if ParseNumber(s.savingsBalanceInput).None? { f := Savings; }
      else { f := CreditCard; }
      assert SubmitFieldError(s, f).Some?;
    }
  }

  /** The summary shown when submit finds errors. */
  function ErrorSummary(errors: seq<string>): string {
    "Please correct the following issues:\n" + JoinLines(errors)
  }

  lemma NoLineBreakAppend(a: string, b: string)
    requires NoLineBreak(a) && NoLineBreak(b)
    ensures NoLineBreak(a + b)
  {
    forall k | 0 <= k < |a + b| ensures (a + b)[k] != '\n' {
      if k >= |a| {
        assert (a + b)[k] == b[k - |a|];
      }
    }
  }

  /** A submit message for one of the four field names holds no line break. */
  lemma SubmitMessageOneLine(input: string, fieldName: string)
    requires fieldName in {"Bank balance", "Cash balance", "Savings balance", "Credit card balance"}
    requires ValidateOnSubmit(input, fieldName).Some?
    ensures NoLineBreak(ValidateOnSubmit(input, fieldName).value)
  {
    assert NoLineBreak(" cannot be empty.");
    assert NoLineBreak(" must be a valid number.");
    assert NoLineBreak(fieldName);
    NoLineBreakAppend(fieldName, " cannot be empty.");
    NoLineBreakAppend(fieldName, " must be a valid number.");
  }

  /** The summary holds the submit errors one per line: splitting its list
      at the line breaks gives back every error, in order. */
  lemma SummaryListsEachError(s: UiState)
    requires SubmitErrors(s) != []
    ensures SplitLines(JoinLines(SubmitErrors(s))) == SubmitErrors(s)
  {
    var errors := SubmitErrors(s);
    forall j | 0 <= j < |errors| ensures NoLineBreak(errors[j]) {
      if ValidateOnSubmit(s.bankBalanceInput, "Bank balance").Some? {
        SubmitMessageOneLine(s.bankBalanceInput, "Bank balance");
      }
      if ValidateOnSubmit(s.cashBalanceInput, "Cash balance").Some? {
        SubmitMessageOneLine(s.cashBalanceInput, "Cash balance");
      }
      if ValidateOnSubmit(s.savingsBalanceInput, "Savings balance").Some? {
        SubmitMessageOneLine(s.savingsBalanceInput, "Savings balance");
      }
      if ValidateOnSubmit(s.creditCardBalanceInput, "Credit card balance").Some? {
        SubmitMessageOneLine(s.creditCardBalanceInput, "Credit card balance");
      }
    }
  }

  /** The message shown when the insert fails. */
  function SaveFailureMessage(localizedMessage: Option<string>): string {
    "Failed to save data: Please try again. (" + localizedMessage.GetOr("Unknown error") + ")"
  }

  /** Submit's error list, built as the screen builds it: one required input
      after another. */
  method CollectSubmitErrors(s: UiState) returns (errors: seq<string>)
    ensures errors == SubmitErrors(s)
  {
    errors := [];
    var bankError := ValidateOnSubmit(s.bankBalanceInput, "Bank balance");
    if bankError.Some? { errors := errors + [bankError.value]; }
    var cashError := ValidateOnSubmit(s.cashBalanceInput, "Cash balance");
    if cashError.Some? { errors := errors + [cashError.value]; }
    var savingsError := ValidateOnSubmit(s.savingsBalanceInput, "Savings balance");
    if savingsError.Some? { errors := errors + [savingsError.value]; }
    if s.hasCreditCard {
      var creditCardError := ValidateOnSubmit(s.creditCardBalanceInput, "Credit card balance");
      if creditCardError.Some? { errors := errors + [creditCardError.value]; }
    }
  }

  /** How the insert of the record ended: it may throw, with or without a
      message. */
  datatype SaveResult = SaveSucceeded | SaveFailed(localizedMessage: Option<string>)

  /** Every input holds only digits and at most one dot. */
  predicate InputsWellFormed(s: UiState) {
    WellFormedInput(s.bankBalanceInput) && WellFormedInput(s.cashBalanceInput)
    && WellFormedInput(s.savingsBalanceInput) && WellFormedInput(s.creditCardBalanceInput)
  }

  /** The screen state after a submit from `s`, given how the insert ends. */
  function AfterSubmit(s: UiState, saveResult: SaveResult): UiState {
    var checked := WithFieldErrors(s.(isSaving := true, errorMessage := None, showSuccessMessage := false));
    var errors := SubmitErrors(s);
    if errors != [] then checked.(isSaving := false, errorMessage := Some(ErrorSummary(errors)))
    else if saveResult.SaveSucceeded? then checked.(isSaving := false, showSuccessMessage := true, errorMessage := None)
    else checked.(isSaving := false, errorMessage := Some(SaveFailureMessage(saveResult.localizedMessage)))
  }

  /** What a submit shows: saving is over; the inputs, the currency and the
      card flag are kept; each field shows its check's error; and the message
      is the list of errors, the insert's failure, or none with the success
      flag raised. */
  lemma AfterSubmitSpec(s: UiState, saveResult: SaveResult)
    ensures var r := AfterSubmit(s, saveResult);
      !r.isSaving
      && r.preferredCurrencySymbol == s.preferredCurrencySymbol && r.hasCreditCard == s.hasCreditCard
      && SameInputs(r, s)
      && r.bankBalanceError == SubmitFieldError(s, Bank) && r.cashBalanceError == SubmitFieldError(s, Cash)
      && r.savingsBalanceError == SubmitFieldError(s, Savings)
      && r.creditCardBalanceError == SubmitFieldError(s, CreditCard)
      && (SubmitErrors(s) != [] ==> r.errorMessage == Some(ErrorSummary(SubmitErrors(s))) && !r.showSuccessMessage)
      && (SubmitErrors(s) == [] && saveResult.SaveSucceeded? ==> r.errorMessage.None? && r.showSuccessMessage)
      && (SubmitErrors(s) == [] && saveResult.SaveFailed? ==>
            r.errorMessage == Some(SaveFailureMessage(saveResult.localizedMessage)) && !r.showSuccessMessage)
      && (InputsWellFormed(s) ==> InputsWellFormed(r))
  {
    var saving := s.(isSaving := true, errorMessage := None, showSuccessMessage := false);
    var checked := WithFieldErrors(saving);
    var r := AfterSubmit(s, saveResult);
    if SubmitErrors(s) != [] {
      assert r == checked.(isSaving := false, errorMessage := Some(ErrorSummary(SubmitErrors(s))));
    } else if saveResult.SaveSucceeded? {
      assert r == checked.(isSaving := false, showSuccessMessage := true, errorMessage := None);
    } else {
      assert r == checked.(isSaving := false, errorMessage := Some(SaveFailureMessage(saveResult.localizedMessage)));
    }
    assert SameInputs(saving, s);
    SameInputsSameFieldErrors(saving, s);
  }

  class OnboardingViewModel {
    var uiState: UiState

    /** Every input holds only digits and at most one dot. */
    predicate Valid()
      reads this
    {
      InputsWellFormed(uiState)
    }

    constructor ()
      ensures uiState == InitialUiState && Valid()
    {
      uiState := InitialUiState;
    }

    /** `onCurrencySymbolChange`. */
    method OnCurrencySymbolChange(symbol: string)
      modifies this
      ensures uiState == old(uiState).(preferredCurrencySymbol := symbol)
      ensures old(Valid()) ==> Valid()
    {
      uiState := uiState.(preferredCurrencySymbol := symbol);
    }

    /** `onBalanceInputChange`: keeps only the digits and dots of `value`; when
        at most one dot remains, stores it in the targeted input with its
        field check, and otherwise changes nothing. */
    method OnBalanceInputChange(field: BalanceField, value: string)
      modifies this
      ensures var filteredValue := FilterInput(value);
        if DotCount(filteredValue) <= 1 then
          InputOf(uiState, field) == filteredValue
          && ErrorOf(uiState, field) == ValidateBalanceInput(filteredValue, field, old(uiState).hasCreditCard).1
          && (forall f :: f != field ==>
                (InputOf(uiState, f) == InputOf(old(uiState), f) && ErrorOf(uiState, f) == ErrorOf(old(uiState), f)))
          && SameSettings(uiState, old(uiState))
        else uiState == old(uiState)
      ensures old(Valid()) ==> Valid()
    {
      var filteredValue := FilterInput(value);
      if DotCount(filteredValue) <= 1 {
        var (newInput, newError) := ValidateBalanceInput(filteredValue, field, uiState.hasCreditCard);
        match field {
          case Bank => uiState := uiState.(bankBalanceInput := newInput, bankBalanceError := newError);
          case Cash => uiState := uiState.(cashBalanceInput := newInput, cashBalanceError := newError);
          case Savings => uiState := uiState.(savingsBalanceInput := newInput, savingsBalanceError := newError);
          case CreditCard => uiState := uiState.(creditCardBalanceInput := newInput, creditCardBalanceError := newError);
        }
      }
    }

    /** `onCreditCardToggle`: sets the flag; turning the card off also clears
        its input and its error. */
    method OnCreditCardToggle(hasCard: bool)
      modifies this
      ensures hasCard ==> uiState == old(uiState).(hasCreditCard := true)
      ensures !hasCard ==>
        uiState == old(uiState).(hasCreditCard := false, creditCardBalanceInput := "", creditCardBalanceError := None)
      ensures old(Valid()) ==> Valid()
    {
      uiState := uiState.(hasCreditCard := hasCard);
      if !hasCard {
        uiState := uiState.(creditCardBalanceInput := "", creditCardBalanceError := None);
      }
    }

    /** `completeOnboarding`: validates every required input again; with any
        error it reports them all and stores nothing; otherwise it inserts the
        record and reports success, or reports the insert's failure.
        `saveResult` is how the insert ended. */
    method CompleteOnboarding(store: TransactionStore, saveResult: SaveResult) returns (saved: bool)
      requires store.WellFormed()
      modifies this, store
      ensures uiState == AfterSubmit(old(uiState), saveResult)
      ensures saved <==> SubmitErrors(old(uiState)) == [] && saveResult.SaveSucceeded?
      ensures store.WellFormed() && store.rows == old(store.rows) && store.nextId == old(store.nextId)
      ensures saved ==>
        var record := OnboardingRecord(old(uiState));
        store.writes == old(store.writes) + [OnboardingInserted(record)]
        && store.balance == (if old(store.balance).None? then Some(record) else old(store.balance))
      ensures !saved ==> store.writes == old(store.writes) && store.balance == old(store.balance)
      ensures old(store.Consistent()) ==> store.Consistent()
    {
      // Raising the saving flag leaves the inputs as they were, so the checks
      // below read the state as it was on entry.
      var entry := uiState;
      uiState := entry.(isSaving := true, errorMessage := None, showSuccessMessage := false);
      var errors := CollectSubmitErrors(entry);
      uiState := WithFieldErrors(uiState);

      if errors != [] {
        uiState := uiState.(isSaving := false, errorMessage := Some(ErrorSummary(errors)));
        return false;
      }

      var record := OnboardingRecord(entry);
      match saveResult {
        case SaveSucceeded =>
          store.AddOnboardingData(record);
          uiState := uiState.(isSaving := false, showSuccessMessage := true, errorMessage := None);
          saved := true;
        case SaveFailed(message) =>
          uiState := uiState.(isSaving := false, errorMessage := Some(SaveFailureMessage(message)));
          saved := false;
      }
    }
  }
}
