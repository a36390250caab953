/** The parts of the Kotlin standard library the screens rely on, on
    characters as Kotlin strings hold them (UTF-16 code units): Char.isDigit,
    Char.isWhitespace, String.isBlank and the string template of an Int. */
module KotlinText {

  /** The code points of the digit zero of every block of decimal digits
      (general category Nd) in the Basic Multilingual Plane; each block is
      the ten code points from its zero on. */
  const DIGIT_ZEROS: seq<int> := [
    0x0030, 0x0660, 0x06F0, 0x07C0, 0x0966, 0x09E6, 0x0A66, 0x0AE6, 0x0B66, 0x0BE6,
    0x0C66, 0x0CE6, 0x0D66, 0x0DE6, 0x0E50, 0x0ED0, 0x0F20, 0x1040, 0x1090, 0x17E0,
    0x1810, 0x1946, 0x19D0, 0x1A80, 0x1A90, 0x1B50, 0x1BB0, 0x1C40, 0x1C50, 0xA620,
    0xA8D0, 0xA900, 0xA9D0, 0xA9F0, 0xAA50, 0xABF0, 0xFF10]

  /** Char.isDigit: a decimal digit of any script, not only '0'..'9'.
      A character outside the Basic Multilingual Plane is two surrogate
      code units in Kotlin, neither of which is a digit. */
  predicate IsDigit(c: char) {
    exists i :: 0 <= i < |DIGIT_ZEROS| && DIGIT_ZEROS[i] <= c as int <= DIGIT_ZEROS[i] + 9
  }

  /** Char.isWhitespace: Java's isWhitespace (the ASCII controls TAB..CR and
      FS..US, and the separators other than the no-break spaces) together
      with isSpaceChar (every space, line or paragraph separator). */
  predicate IsWhitespace(c: char) {
    || ('\t' <= c <= '\r')
    || ('\U{1C}' <= c <= '\U{1F}')
    || c == ' ' || c == '\U{A0}' || c == '\U{1680}'
    || ('\U{2000}' <= c <= '\U{200A}')
    || c == '\U{2028}' || c == '\U{2029}' || c == '\U{202F}' || c == '\U{205F}' || c == '\U{3000}'
  }

  /** String.isBlank: empty, or whitespace only. */
  predicate IsBlank(s: string) {
    forall i :: 0 <= i < |s| ==> IsWhitespace(s[i])
  }

  /** No digit is whitespace. */
  lemma DigitIsNotWhitespace(c: char)
    requires IsDigit(c)
    ensures !IsWhitespace(c)
  {
  }

  /** Below the Arabic-Indic digits, the digits are '0'..'9' only; in
      particular '.' and ',' are not digits. */
  lemma AsciiDigits(c: char)
    ensures '0' <= c <= '9' ==> IsDigit(c)
    ensures c as int < 0x0660 && !('0' <= c <= '9') ==> !IsDigit(c)
    ensures c == '.' || c == ',' ==> !IsDigit(c)
  {
    if '0' <= c <= '9' {
      assert DIGIT_ZEROS[0] <= c as int <= DIGIT_ZEROS[0] + 9;
    }
  }

  /** A blank string is "" or has no non-whitespace character; in particular
      a string holding a digit is not blank. */
  lemma NotBlankWithDigit(s: string, i: int)
    requires 0 <= i < |s| && IsDigit(s[i])
    ensures !IsBlank(s)
  {
    DigitIsNotWhitespace(s[i]);
  }

  function DigitChar(d: int): (c: char)
    requires 0 <= d < 10
    ensures '0' <= c <= '9'
    ensures c as int - '0' as int == d
  {
    ['0', '1', '2', '3', '4', '5', '6', '7', '8', '9'][d]
  }

  /** The decimal digits of a non-negative number, without leading zeros. */
  function NatToString(n: nat): (s: string)
    ensures |s| > 0
    ensures forall i :: 0 <= i < |s| ==> '0' <= s[i] <= '9'
    ensures n >= 10 <==> |s| >= 2
  {
    if n < 10 then [DigitChar(n)] else NatToString(n / 10) + [DigitChar(n % 10)]
  }

  /** The value the digits of `s` denote. */
  function DecimalValue(s: string): int
    requires forall i :: 0 <= i < |s| ==> '0' <= s[i] <= '9'
  {
    if s == [] then 0 else 10 * DecimalValue(s[..|s| - 1]) + (s[|s| - 1] as int - '0' as int)
  }

  /** The template "$n" of an Int: a minus sign before the digits of a negative number. */
  function IntToString(n: int): (s: string)
    ensures |s| > 0
    ensures n >= 0 ==> s == NatToString(n)
    ensures n < 0 ==> s == "-" + NatToString(-n)
  {
    if n < 0 then "-" + NatToString(-n) else NatToString(n)
  }

  /** Reading the digits back gives the number. */
  lemma {:induction false} NatToStringRoundTrip(n: nat)
    ensures DecimalValue(NatToString(n)) == n
  {
    var s := NatToString(n);
    if n >= 10 {
      NatToStringRoundTrip(n / 10);
      assert s[..|s| - 1] == NatToString(n / 10);
    }
  }

  lemma NatToStringInjective(a: nat, b: nat)
    requires NatToString(a) == NatToString(b)
    ensures a == b
  {
    NatToStringRoundTrip(a);
    NatToStringRoundTrip(b);
  }

  lemma NegativeToStringInjective(a: int, b: int)
    requires a < 0 && b < 0
    requires IntToString(a) == IntToString(b)
    ensures a == b
  {
    assert NatToString(-a) == IntToString(a)[1..];
    assert NatToString(-b) == IntToString(b)[1..];
    NatToStringInjective(-a, -b);
  }

  /** A negative number's string starts with '-', any other number's with a digit. */
  lemma SignsDiffer(a: int, b: int)
    requires a < 0 <= b
    ensures IntToString(a) != IntToString(b)
  {
    assert IntToString(a)[0] == '-';
    assert IntToString(b)[0] == NatToString(b)[0];
  }

  /** Different numbers are written differently. */
  lemma IntToStringInjective(a: int, b: int)
    requires IntToString(a) == IntToString(b)
    ensures a == b
  {
    if a < 0 && b < 0 {
      NegativeToStringInjective(a, b);
    } else if a >= 0 && b >= 0 {
      NatToStringInjective(a, b);
    } else if a < 0 {
      SignsDiffer(a, b);
    } else {
      SignsDiffer(b, a);
    }
  }
}
