/**
 * Decimal numbers as the converters read and write them: Python's `int(text)`
 * and `int(float(text))` on the text of a spreadsheet cell, and the decimal
 * form `str(n)` that f-strings produce.
 */
module Numbers {
  import opened Wrappers
  import opened Text

  predicate IsDigit(c: char)
  {
    '0' <= c <= '9'
  }

  predicate AllDigits(s: string)
  {
    forall i :: 0 <= i < |s| ==> IsDigit(s[i])
  }

  function DigitValue(c: char): nat
    requires IsDigit(c)
  {
    c as int - '0' as int
  }

  function DigitChar(d: nat): char
    requires d < 10
  {
    ('0' as int + d) as char
  }

  /** The value of a run of decimal digits, most significant first (0 for no digits). */
  function DigitsValue(s: string): nat
    requires AllDigits(s)
    decreases |s|
  {
    if s == [] then 0 else DigitsValue(s[..|s| - 1]) * 10 + DigitValue(s[|s| - 1])
  }

  /** A sign applied to a non-empty run of digits; anything else is not a number. */
  function SignedValue(negative: bool, digits: string): Option<int>
  {
    if digits != [] && AllDigits(digits) then
      var v: int := DigitsValue(digits);
      Some(if negative then -v else v)
    else None
  }

  /**
   * `int(text)`: optional surrounding white space, an optional `+` or `-`,
   * then one or more ASCII digits. `None` stands for the `ValueError`.
   */
  function ParseInt(text: string): Option<int>
  {
    var t := Strip(text);
    if t != [] && (t[0] == '+' || t[0] == '-') then SignedValue(t[0] == '-', t[1..])
    else SignedValue(false, t)
  }

  /**
   * `int(float(text))` for text in plain decimal notation: an optional sign,
   * then digits with at most one `.`, at least one digit in all. The fraction
   * is dropped, which is truncation towards zero.
   */
  function ParseFloatTruncated(text: string): Option<int>
  {
    var t := Strip(text);
    if t != [] && (t[0] == '+' || t[0] == '-') then TruncatedMantissa(t[0] == '-', t[1..])
    else TruncatedMantissa(false, t)
  }

  function TruncatedMantissa(negative: bool, m: string): Option<int>
  {
    var pieces := Split(m, ".");
    if |pieces| == 1 then SignedValue(negative, m)
    else if |pieces| == 2 && AllDigits(pieces[0]) && AllDigits(pieces[1]) && (pieces[0] != [] || pieces[1] != []) then
      var v: int := DigitsValue(pieces[0]);
      Some(if negative then -v else v)
    else None
  }

  lemma NoNonDigit(s: string, c: char)
    requires AllDigits(s) && !IsDigit(c)
    ensures c !in s
  {
    assert forall i :: 0 <= i < |s| ==> s[i] != c;
  }

  /** Every text `int()` accepts, `int(float())` accepts with the same value. */
  lemma {:induction false} FloatAcceptsIntText(text: string)
    requires ParseInt(text).Some?
    ensures ParseFloatTruncated(text) == ParseInt(text)
  {
    var t := Strip(text);
    var m := if t != [] && (t[0] == '+' || t[0] == '-') then t[1..] else t;
    NoNonDigit(m, '.');
    ContainsChar(m, '.');
    SplitCount(m, ".");
  }

  /** The decimal form "n.0" of a natural number reads back, with `int(float())`, as n. */
  lemma {:induction false} DecimalTextValue(n: nat)
    ensures ParseFloatTruncated(IntToString(n) + ".0") == Some(n)
  {
    var d := IntToString(n);
    var s := d + ".0";
    IntToStringShape(n);
    NatToStringDigits(n);
    assert s[0] == d[0] && s[|s| - 1] == '0';
    StripNoop(s);
    assert s == d + ['.'] + "0";
    SplitAround(d, '.', "0");
  }

  /** `str(n)` for a natural number: its decimal digits, without leading zeros. */
  function NatToString(n: nat): string
    decreases n
  {
    if n < 10 then [DigitChar(n)] else NatToString(n / 10) + [DigitChar(n % 10)]
  }

  /** `str(n)` for any integer: a `-` in front of a negative number. */
  function IntToString(n: int): string
  {
    if n < 0 then "-" + NatToString(-n) else NatToString(n)
  }

  lemma {:induction false} NatToStringDigits(n: nat)
    ensures var s := NatToString(n);
      s != [] && AllDigits(s) && DigitsValue(s) == n
    decreases n
  {
    if n >= 10 {
      NatToStringDigits(n / 10);
      var s := NatToString(n / 10);
      var t := s + [DigitChar(n % 10)];
      assert t[..|t| - 1] == s;
    }
  }

  /** The decimal form starts and ends with a character that is not white space, and has no `-` unless negative. */
  lemma {:induction false} IntToStringShape(n: int)
    ensures var s := IntToString(n);
      s != [] && !IsSpace(s[0]) && IsDigit(s[|s| - 1]) && '.' !in s && (n >= 0 ==> AllDigits(s) && '-' !in s)
  {
    NatToStringDigits(if n < 0 then -n else n);
    var s := IntToString(n);
    var d := NatToString(if n < 0 then -n else n);
    NoNonDigit(d, '.');
    NoNonDigit(d, '-');
    assert s[|s| - 1] == d[|d| - 1];
  }

  /** Reading back the decimal form of a number with `int()` gives the number. */
  lemma {:induction false} ParseIntRoundTrip(n: int)
    ensures ParseInt(IntToString(n)) == Some(n)
  {
    var s := IntToString(n);
    IntToStringShape(n);
    StripNoop(s);
    NatToStringDigits(if n < 0 then -n else n);
    if n < 0 {
      assert s[1..] == NatToString(-n);
    } else {
      assert IsDigit(s[0]);
    }
  }

  /** Distinct numbers have distinct decimal forms. */
  lemma {:induction false} IntToStringInjective(a: int, b: int)
    requires IntToString(a) == IntToString(b)
    ensures a == b
  {
    ParseIntRoundTrip(a);
    ParseIntRoundTrip(b);
  }
}
