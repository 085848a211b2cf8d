/**
 * The Python built-ins the prediction service applies to request fields: `str.strip()`,
 * `str()` and `int()` on a value decoded from JSON.
 */
module PyText {
  import opened Outcomes
  import opened Decimal

  /**
   * A JSON value as the service sees it after `get_json`. Lists and objects are
   * `Composite`, carrying the text `str()` gives for them.
   */
  datatype Value = Null | Int(n: int) | Str(s: string) | Composite(text: string)

  /** The characters `str.isspace()` accepts, which `strip()` removes. */
  predicate IsSpace(c: char) {
    || '\t' <= c <= '\r'
    || '\U{1c}' <= c <= ' '
    || c == '\U{85}' || c == '\U{a0}' || c == '\U{1680}'
    || '\U{2000}' <= c <= '\U{200a}'
    || c == '\U{2028}' || c == '\U{2029}' || c == '\U{202f}' || c == '\U{205f}' || c == '\U{3000}'
  }

  /** Index of the first character at or after `i` that `strip()` keeps (or `|s|`). */
  function StripStart(s: string, i: nat): (k: nat)
    requires i <= |s|
    ensures i <= k <= |s|
    decreases |s| - i
  {
    if i == |s| || !IsSpace(s[i]) then i else StripStart(s, i + 1)
  }

  lemma {:induction false} StripStartSkipsSpace(s: string, i: nat)
    requires i <= |s|
    ensures forall k :: i <= k < StripStart(s, i) ==> IsSpace(s[k])
    ensures StripStart(s, i) < |s| ==> !IsSpace(s[StripStart(s, i)])
    decreases |s| - i
  {
    if i < |s| && IsSpace(s[i]) {
      StripStartSkipsSpace(s, i + 1);
    }
  }

  /** One past the last character before `j` that `strip()` keeps, searching no lower than `lo`. */
  function StripEnd(s: string, lo: nat, j: nat): (k: nat)
    requires lo <= j <= |s|
    ensures lo <= k <= j
  {
    if j == lo || !IsSpace(s[j - 1]) then j else StripEnd(s, lo, j - 1)
  }

  lemma {:induction false} StripEndSkipsSpace(s: string, lo: nat, j: nat)
    requires lo <= j <= |s|
    ensures forall k :: StripEnd(s, lo, j) <= k < j ==> IsSpace(s[k])
    ensures StripEnd(s, lo, j) > lo ==> !IsSpace(s[StripEnd(s, lo, j) - 1])
  {
    if j != lo && IsSpace(s[j - 1]) {
      StripEndSkipsSpace(s, lo, j - 1);
    }
  }

  /** `str.strip()`: remove whitespace from both ends. */
  function Strip(s: string): (r: string)
    ensures |r| <= |s|
  {
    var i := StripStart(s, 0);
    s[i..StripEnd(s, i, |s|)]
  }

  /** `strip()` empties exactly the all-whitespace strings, and otherwise leaves no space at either end. */
  lemma StripEnds(s: string)
    ensures Strip(s) == [] <==> forall k :: 0 <= k < |s| ==> IsSpace(s[k])
    ensures Strip(s) != [] ==> !IsSpace(Strip(s)[0]) && !IsSpace(Strip(s)[|Strip(s)| - 1])
  {
    var i := StripStart(s, 0);
    StripStartSkipsSpace(s, 0);
    StripEndSkipsSpace(s, i, |s|);
  }

  /** Text that begins and ends with non-space characters is left as it is. */
  lemma StripKeepsTightText(s: string)
    requires s != [] && !IsSpace(s[0]) && !IsSpace(s[|s| - 1])
    ensures Strip(s) == s
  {
    assert StripStart(s, 0) == 0;
    assert StripEnd(s, 0, |s|) == |s|;
  }

  /** `strip()` twice is `strip()` once. */
  lemma StripIdempotent(s: string)
    ensures Strip(Strip(s)) == Strip(s)
  {
    StripEnds(s);
    if Strip(s) != [] {
      StripKeepsTightText(Strip(s));
    }
  }

  /** `str(v)`. */
  function ToStr(v: Value): string {
    match v
    case Null => "None"
    case Int(n) => IntToString(n)
    case Str(s) => s
    case Composite(text) => text
  }

  /**
   * The four information separators U+001C..U+001F: `strip()` removes them, but `int()`
   * leaves ASCII text as it is and skips only the other whitespace, so they make it raise.
   */
  predicate IsInfoSeparator(c: char) {
    '\U{1c}' <= c <= '\U{1f}'
  }

  predicate NoInfoSeparator(s: string) {
    forall k :: 0 <= k < |s| ==> !IsInfoSeparator(s[k])
  }

  /** The whitespace `int()` skips around a numeral. */
  predicate IsIntSpace(c: char) {
    IsSpace(c) && !IsInfoSeparator(c)
  }

  /** CPython's default limit on the digits `int()` converts from text (and `str()` writes). */
  const MaxStrDigits: nat := 4300

  /**
   * `int(s)` on a string: whitespace `int()` skips around an optional sign and at least
   * one digit, with at most `MaxStrDigits` digits. `None` is the `ValueError`.
   */
  function ParseIntText(s: string): (r: Option<int>)
    ensures r.Some? ==> Strip(s) != []
  {
    var t := Strip(s);
    var digits := Unsigned(t);
    if !NoInfoSeparator(s) || |digits| == 0 || !AllDigits(digits) || |digits| > MaxStrDigits then None
    else
      SignedNumeralParts(t);
      var v: int := DigitsValue(digits);
      Some(if t[0] == '-' then -v else v)
  }

  /**
   * `int()` accepts exactly a signed numeral of at most `MaxStrDigits` digits surrounded by
   * whitespace it skips.
   */
  lemma ParseIntTextAccepts(s: string)
    ensures ParseIntText(s).Some? <==>
              && IsSignedNumeral(Strip(s)) && |Unsigned(Strip(s))| <= MaxStrDigits
              && forall k :: 0 <= k < |s| ==> !IsInfoSeparator(s[k])
    ensures ParseIntText(s).Some? ==>
              exists i, j :: && 0 <= i <= j <= |s| && s[i..j] == Strip(s)
                             && (forall k :: 0 <= k < i ==> IsIntSpace(s[k]))
                             && (forall k :: j <= k < |s| ==> IsIntSpace(s[k]))
  {
    var t := Strip(s);
    SignedNumeralParts(t);
    var i := StripStart(s, 0);
    var j := StripEnd(s, i, |s|);
    StripStartSkipsSpace(s, 0);
    StripEndSkipsSpace(s, i, |s|);
    assert s[i..j] == t;
  }

  /** Without information separators, `int()` ignores the whitespace `strip()` removes. */
  lemma ParseIntTextIgnoresStrip(s: string)
    requires NoInfoSeparator(s)
    ensures ParseIntText(s) == ParseIntText(Strip(s))
  {
    var i := StripStart(s, 0);
    var t := Strip(s);
    assert t == s[i..StripEnd(s, i, |s|)];
    assert NoInfoSeparator(t) by {
      forall k | 0 <= k < |t| ensures !IsInfoSeparator(t[k]) {
        assert t[k] == s[i + k];
      }
    }
    StripIdempotent(s);
  }

  /**
   * Text whose stripped form is a signed numeral, with or without a sign or leading zeros,
   * gives the value it denotes, within the digit limit.
   */
  lemma ParseIntTextOfNumeral(s: string)
    requires NoInfoSeparator(s) && IsSignedNumeral(Strip(s))
    ensures ParseIntText(s) == if |Unsigned(Strip(s))| <= MaxStrDigits then Some(NumeralValue(Strip(s))) else None
  {
    SignedNumeralParts(Strip(s));
  }

  /** An hour padded with spaces and a zero, as a JSON string may carry it. */
  lemma ParseIntTextOfSpacedHour()
    ensures ParseIntText(" 07 ") == Some(7)
  {
    var a := " 07 ";
    assert IsSpace(a[0]) && !IsSpace(a[1]) && !IsSpace(a[2]) && IsSpace(a[3]);
    assert StripStart(a, 1) == 1;
    assert StripStart(a, 0) == 1;
    assert StripEnd(a, 1, 3) == 3;
    assert StripEnd(a, 1, 4) == 3;
    assert Strip(a) == a[1..3] == "07";
    ZeroPaddedRoundTrip(1, 7);
    assert "07" == seq(1, _ => '0') + NatDigits(7);
    ParseIntTextOfNumeral(a);
  }

  /** A signed hour followed by a newline. */
  lemma ParseIntTextOfSignedHour()
    ensures ParseIntText("+14\n") == Some(14)
  {
    var b := "+14\n";
    assert !IsSpace(b[0]) && !IsSpace(b[2]) && IsSpace(b[3]);
    assert StripStart(b, 0) == 0;
    assert StripEnd(b, 0, 3) == 3;
    assert StripEnd(b, 0, 4) == 3;
    assert Strip(b) == b[0..3] == "+14";
    DigitsRoundTrip(14);
    assert Unsigned("+14") == NatDigits(14);
    ParseIntTextOfNumeral(b);
  }

  /** `int(v)`: integers pass through, strings are parsed, lists and objects raise `TypeError`. */
  function ToInt(v: Value): (r: Option<int>)
    ensures v.Int? ==> r == Some(v.n)
    ensures v.Composite? || v.Null? ==> r.None?
  {
    match v
    case Int(n) => Some(n)
    case Str(s) => ParseIntText(s)
    case _ => None
  }

  /** Decimal text holds only a sign and digits, none of them an information separator. */
  lemma DecimalHasNoInfoSeparator(n: int)
    ensures NoInfoSeparator(IntToString(n))
  {
    var s := IntToString(n);
    forall k | 0 <= k < |s| ensures !IsInfoSeparator(s[k]) {
      if n < 0 && k > 0 {
        assert s[k] == NatDigits(-n)[k - 1];
      }
    }
  }

  /** `int()` reads back an integer from its decimal text exactly when that has at most `MaxStrDigits` digits. */
  lemma ParseIntTextOfDecimal(n: int)
    ensures ParseIntText(IntToString(n)) == if |NatDigits(if n < 0 then -n else n)| <= MaxStrDigits then Some(n) else None
  {
    var s := IntToString(n);
    var m: nat := if n < 0 then -n else n;
    var d := NatDigits(m);
    assert !IsSpace(s[0]) && !IsSpace(s[|s| - 1]);
    StripKeepsTightText(s);
    DecimalHasNoInfoSeparator(n);
    assert Unsigned(s) == d;
    DigitsRoundTrip(m);
    if |d| <= MaxStrDigits {
      assert ParseIntText(s) == Some(if s[0] == '-' then -(m as int) else m as int);
    }
  }
}
