/** The payment form of the payment screen (OdemeEkraniContent): two amount
    fields, each behind a radio button that enables it, the number filter
    every edit goes through, the reset button and the save button. */
module OdemeFormu {
  import opened Entities
  import opened Options
  import opened KotlinText

  /** The characters filterNumbers keeps: a digit of any script, '.' or ','. */
  predicate IsAmountChar(c: char) {
    IsDigit(c) || c == '.' || c == ','
  }

  /** Every character of the text is one filterNumbers keeps. */
  predicate AllAmountChars(s: string) {
    forall i :: 0 <= i < |s| ==> IsAmountChar(s[i])
  }

  /** filterNumbers: `text.filter { it.isDigit() || it == '.' || it == ',' }`. */
  function FilterNumbers(text: string): (r: string)
    ensures AllAmountChars(r)
    ensures |r| <= |text|
  {
    if text == [] then []
    else
      var rest := FilterNumbers(text[1..]);
      if IsAmountChar(text[0]) then [text[0]] + rest else rest
  }

  /** Filtering a concatenation filters each part. */
  lemma {:induction false} FilterConcat(a: string, b: string)
    ensures FilterNumbers(a + b) == FilterNumbers(a) + FilterNumbers(b)
  {
    if a == [] {
      assert a + b == b;
    } else {
      assert (a + b)[1..] == a[1..] + b;
      FilterConcat(a[1..], b);
    }
  }

  /** Text made of allowed characters passes unchanged. */
  lemma {:induction false} FilterKeepsAllowedText(s: string)
    requires AllAmountChars(s)
    ensures FilterNumbers(s) == s
  {
    if s != [] {
      assert AllAmountChars(s[1..]) by {
        forall i | 0 <= i < |s[1..]| ensures IsAmountChar(s[1..][i]) {
          assert s[1..][i] == s[i + 1];
        }
      }
      FilterKeepsAllowedText(s[1..]);
    }
  }

  /** Filtering twice is filtering once. */
  lemma FilterIdempotent(s: string)
    ensures FilterNumbers(FilterNumbers(s)) == FilterNumbers(s)
  {
    FilterKeepsAllowedText(FilterNumbers(s));
  }

  /** `a` can be obtained from `b` by deleting characters. */
  predicate IsSubsequence(a: string, b: string)
    decreases |b|
  {
    if a == [] then true
    else if b == [] then false
    else if a[0] == b[0] then IsSubsequence(a[1..], b[1..])
    else IsSubsequence(a, b[1..])
  }

  /** The filter only deletes: its output is a subsequence of its input. */
  lemma {:induction false} FilterIsSubsequence(s: string)
    ensures IsSubsequence(FilterNumbers(s), s)
  {
    if s != [] {
      FilterIsSubsequence(s[1..]);
      var rest := FilterNumbers(s[1..]);
      if IsAmountChar(s[0]) {
        assert FilterNumbers(s) == [s[0]] + rest;
        assert ([s[0]] + rest)[1..] == rest;
      } else {
        SkipKeepsSubsequence(rest, s);
      }
    }
  }

  /** A subsequence of the tail is a subsequence of the whole text. */
  lemma {:induction false} SkipKeepsSubsequence(a: string, b: string)
    requires b != []
    requires IsSubsequence(a, b[1..])
    ensures IsSubsequence(a, b)
    decreases |b|, 0
  {
    if a != [] && a[0] == b[0] {
      DropHeadKeepsSubsequence(a, b[1..]);
    }
  }

  /** Dropping the first character of `a` keeps it a subsequence. */
  lemma {:induction false} DropHeadKeepsSubsequence(a: string, c: string)
    requires a != []
    requires IsSubsequence(a, c)
    ensures IsSubsequence(a[1..], c)
    decreases |c|, 1
  {
    if c != [] {
      if a[0] == c[0] {
        SkipKeepsSubsequence(a[1..], c);
      } else {
        DropHeadKeepsSubsequence(a, c[1..]);
        SkipKeepsSubsequence(a[1..], c);
      }
    }
  }

  /** Every allowed character is kept as often as it occurs, and no other character is kept. */
  lemma {:induction false} FilterCounts(s: string, c: char)
    ensures IsAmountChar(c) ==> multiset(FilterNumbers(s))[c] == multiset(s)[c]
    ensures !IsAmountChar(c) ==> multiset(FilterNumbers(s))[c] == 0
  {
    if s != [] {
      FilterCounts(s[1..], c);
      assert s == [s[0]] + s[1..];
      assert multiset(s) == multiset{s[0]} + multiset(s[1..]);
      var rest := FilterNumbers(s[1..]);
      if IsAmountChar(s[0]) {
        assert multiset([s[0]] + rest) == multiset{s[0]} + multiset(rest);
      }
    }
  }

  /** A digit of another script is kept like an ASCII one: the Arabic-Indic
      three survives, the letter does not. */
  lemma ArabicIndicDigitKept()
    ensures FilterNumbers("\U{0663}a") == "\U{0663}"
  {
    assert DIGIT_ZEROS[1] <= '\U{0663}' as int <= DIGIT_ZEROS[1] + 9;
    assert IsAmountChar('\U{0663}');
    AsciiDigits('a');
    assert "\U{0663}a"[1..] == "a";
    assert "a"[1..] == "";
  }

  /** The amount a field starts from: the payment's, or "" without one. */
  function InitialAmount(existing: Option<Payment>, paid: bool): string {
    if existing.None? then "" else if paid then existing.value.paidAmount else existing.value.willPayAmount
  }

  /** The state of the form's fields. */
  class PaymentForm {
    var paidAmount: string
    var willPayAmount: string
    var isPaidEnabled: bool
    var isWillPayEnabled: bool

    /** The form shows the existing payment's amounts and flags, or empty amounts and both flags off. */
    ghost predicate ShowsPayment(existing: Option<Payment>)
      reads this
    {
      && paidAmount == InitialAmount(existing, true)
      && willPayAmount == InitialAmount(existing, false)
      && isPaidEnabled == (existing.Some? && existing.value.isPaidEnabled)
      && isWillPayEnabled == (existing.Some? && existing.value.isWillPayEnabled)
    }

    /** The `remember { mutableStateOf(...) }` initial values. */
    constructor (existing: Option<Payment>)
      ensures ShowsPayment(existing)
    {
      paidAmount := if existing.Some? then existing.value.paidAmount else "";
      willPayAmount := if existing.Some? then existing.value.willPayAmount else "";
      isPaidEnabled := if existing.Some? then existing.value.isPaidEnabled else false;
      isWillPayEnabled := if existing.Some? then existing.value.isWillPayEnabled else false;
    }

    /** The LaunchedEffect(existingPayment): the fields follow a changed payment. */
    method Resync(existing: Option<Payment>)
      modifies this
      ensures ShowsPayment(existing)
    {
      paidAmount := if existing.Some? then existing.value.paidAmount else "";
      willPayAmount := if existing.Some? then existing.value.willPayAmount else "";
      isPaidEnabled := if existing.Some? then existing.value.isPaidEnabled else false;
      isWillPayEnabled := if existing.Some? then existing.value.isWillPayEnabled else false;
    }

    /** onValueChange of the "Ödedi" field: the new text, filtered. */
    method EditPaid(newValue: string)
      modifies this
      ensures paidAmount == FilterNumbers(newValue) && AllAmountChars(paidAmount)
      ensures willPayAmount == old(willPayAmount)
      ensures isPaidEnabled == old(isPaidEnabled) && isWillPayEnabled == old(isWillPayEnabled)
    {
      paidAmount := FilterNumbers(newValue);
    }

    /** onValueChange of the "Ödeyecek" field: the new text, filtered. */
    method EditWillPay(newValue: string)
      modifies this
      ensures willPayAmount == FilterNumbers(newValue) && AllAmountChars(willPayAmount)
      ensures paidAmount == old(paidAmount)
      ensures isPaidEnabled == old(isPaidEnabled) && isWillPayEnabled == old(isWillPayEnabled)
    {
      willPayAmount := FilterNumbers(newValue);
    }

    /** The "Ödedi" radio button flips its flag; the amount stays as typed. */
    method TogglePaid()
      modifies this
      ensures isPaidEnabled == !old(isPaidEnabled) && isWillPayEnabled == old(isWillPayEnabled)
      ensures paidAmount == old(paidAmount) && willPayAmount == old(willPayAmount)
    {
      isPaidEnabled := !isPaidEnabled;
    }

    /** The "Ödeyecek" radio button flips its flag; the amount stays as typed. */
    method ToggleWillPay()
      modifies this
      ensures isWillPayEnabled == !old(isWillPayEnabled) && isPaidEnabled == old(isPaidEnabled)
      ensures paidAmount == old(paidAmount) && willPayAmount == old(willPayAmount)
    {
      isWillPayEnabled := !isWillPayEnabled;
    }

    /** The "Sıfırla" button's local part: both amounts emptied, both flags off,
        which is what the form shows for no payment. */
    method Reset()
      modifies this
      ensures paidAmount == "" && willPayAmount == "" && !isPaidEnabled && !isWillPayEnabled
      ensures ShowsPayment(None)
      ensures !SaveEnabled()
    {
      paidAmount := "";
      willPayAmount := "";
      isPaidEnabled := false;
      isWillPayEnabled := false;
    }

    /** Kaydet is enabled while either flag is on. */
    function SaveEnabled(): (r: bool)
      reads this
      ensures r <==> isPaidEnabled || isWillPayEnabled
    {
      isPaidEnabled || isWillPayEnabled
    }
  }

  /** The reset button is shown only for an existing payment. */
  predicate ResetOffered(existing: Option<Payment>) {
    existing.Some?
  }

  /** A form opened on no payment offers no reset and cannot save until a flag is switched on. */
  lemma NewFormBlank(form: PaymentForm)
    requires form.ShowsPayment(None)
    ensures !ResetOffered(None)
    ensures !form.SaveEnabled()
    ensures form.paidAmount == "" && form.willPayAmount == ""
  {
  }
}
