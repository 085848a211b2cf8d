/**
 * Decimal digit strings, as read by Java's `Integer.parseInt` and Python's `int()` and as
 * written by Python's `str()` on an integer. Only the ASCII digits '0'..'9' are modelled.
 */
module Decimal {

  predicate IsDigit(c: char) {
    '0' <= c <= '9'
  }

  predicate AllDigits(s: string) {
    forall i :: 0 <= i < |s| ==> IsDigit(s[i])
  }

  function DigitValue(c: char): (d: nat)
    requires IsDigit(c)
    ensures d < 10
  {
    c as int - '0' as int
  }

  function DigitChar(d: nat): (c: char)
    requires d < 10
    ensures IsDigit(c) && DigitValue(c) == d
  {
    ('0' as int + d) as char
  }

  /** The value of a string of digits, most significant first; leading zeros are allowed. */
  function DigitsValue(s: string): nat
    requires AllDigits(s)
  {
    if s == [] then 0 else DigitsValue(s[..|s| - 1]) * 10 + DigitValue(s[|s| - 1])
  }

  /** The shortest digit string of a natural number. */
  function NatDigits(n: nat): (s: string)
    ensures |s| >= 1 && AllDigits(s)
    ensures |s| > 1 ==> s[0] != '0'
    decreases n
  {
    if n < 10 then [DigitChar(n)] else NatDigits(n / 10) + [DigitChar(n % 10)]
  }

  /** The decimal text of an integer, with a leading '-' when it is negative. */
  function IntToString(n: int): (s: string)
    ensures |s| >= 1
    ensures n < 0 <==> s[0] == '-'
    ensures n >= 0 ==> AllDigits(s)
  {
    if n < 0 then "-" + NatDigits(-n) else NatDigits(n)
  }

  /** Reading back the digits of `n` gives `n`. */
  lemma {:induction false} DigitsRoundTrip(n: nat)
    ensures DigitsValue(NatDigits(n)) == n
    decreases n
  {
    if n >= 10 {
      DigitsRoundTrip(n / 10);
      var s := NatDigits(n);
      assert s[..|s| - 1] == NatDigits(n / 10);
    }
  }

  predicate IsSign(c: char) {
    c == '-' || c == '+'
  }

  /** An optional '+' or '-' followed by at least one digit, and nothing else. */
  predicate IsSignedNumeral(t: string) {
    && |t| >= 1
    && (IsDigit(t[0]) || IsSign(t[0]))
    && IsDigit(t[|t| - 1])
    && forall k :: 1 <= k < |t| ==> IsDigit(t[k])
  }

  /** The digits of a numeral: the text after an optional sign. */
  function Unsigned(t: string): (digits: string)
    ensures |digits| <= |t|
  {
    if |t| > 0 && IsSign(t[0]) then t[1..] else t
  }

  /** A text is a signed numeral exactly when what follows its optional sign is a non-empty run of digits. */
  lemma SignedNumeralParts(t: string)
    ensures IsSignedNumeral(t) <==> |Unsigned(t)| > 0 && AllDigits(Unsigned(t))
  {
    var d := Unsigned(t);
    if |d| > 0 && AllDigits(d) {
      if IsSign(t[0]) {
        forall k | 1 <= k < |t| ensures IsDigit(t[k]) {
          assert t[k] == d[k - 1];
        }
      } else {
        assert IsDigit(d[0]);
      }
    }
    if IsSignedNumeral(t) && IsSign(t[0]) {
      forall k | 0 <= k < |d| ensures IsDigit(d[k]) {
        assert d[k] == t[k + 1];
      }
    }
  }

  /** The value a signed numeral denotes: its digits' value, negated after a '-'. */
  function NumeralValue(t: string): (v: int)
    requires IsSignedNumeral(t)
    ensures AllDigits(Unsigned(t))
    ensures (if v < 0 then -v else v) == DigitsValue(Unsigned(t))
    ensures v < 0 ==> t[0] == '-'
    ensures v > 0 ==> t[0] != '-'
  {
    SignedNumeralParts(t);
    var magnitude: int := DigitsValue(Unsigned(t));
    if t[0] == '-' then -magnitude else magnitude
  }

  /** A leading zero does not change the value of a digit string. */
  lemma {:induction false} LeadingZeroValue(d: string)
    requires AllDigits(d)
    ensures AllDigits(['0'] + d) && DigitsValue(['0'] + d) == DigitsValue(d)
    decreases |d|
  {
    var z := ['0'] + d;
    if d == [] {
      assert z[..0] == [];
    } else {
      LeadingZeroValue(d[..|d| - 1]);
      assert z[..|z| - 1] == ['0'] + d[..|d| - 1];
    }
  }

  /** Any number of leading zeros before the digits of `n` still reads back as `n`. */
  lemma {:induction false} ZeroPaddedRoundTrip(zeros: nat, n: nat)
    ensures AllDigits(seq(zeros, _ => '0') + NatDigits(n))
    ensures DigitsValue(seq(zeros, _ => '0') + NatDigits(n)) == n
    decreases zeros
  {
    if zeros == 0 {
      assert seq(zeros, _ => '0') + NatDigits(n) == NatDigits(n);
      DigitsRoundTrip(n);
    } else {
      var rest := seq(zeros - 1, _ => '0') + NatDigits(n);
      ZeroPaddedRoundTrip(zeros - 1, n);
      assert seq(zeros, _ => '0') + NatDigits(n) == ['0'] + rest;
      LeadingZeroValue(rest);
    }
  }
}
