/**
 * The pieces of the Java standard library the core relies on, stated as functions:
 * `String.trim`, `String.split(",")`, `Integer.parseInt` and the case-insensitive
 * substring search a `RowFilter.regexFilter("(?i)" + text, column)` performs on plain text.
 */
module JavaText {
  import opened Outcomes
  import opened Decimal

  // ---------------------------------------------------------------- trim

  /** `String.trim` treats every character up to U+0020 as removable. */
  predicate IsTrimmable(c: char) {
    c <= ' '
  }

  /** A line that `trim()` empties: every character is removable. */
  predicate IsBlank(s: string) {
    forall k :: 0 <= k < |s| ==> IsTrimmable(s[k])
  }

  /** Index of the first character at or after `i` that `trim()` keeps (or `|s|`). */
  function TrimStart(s: string, i: nat): (k: nat)
    requires i <= |s|
    ensures i <= k <= |s|
    decreases |s| - i
  {
    if i == |s| || !IsTrimmable(s[i]) then i else TrimStart(s, i + 1)
  }

  lemma {:induction false} TrimStartSkips(s: string, i: nat)
    requires i <= |s|
    ensures forall k :: i <= k < TrimStart(s, i) ==> IsTrimmable(s[k])
    ensures TrimStart(s, i) < |s| ==> !IsTrimmable(s[TrimStart(s, i)])
    decreases |s| - i
  {
    if i < |s| && IsTrimmable(s[i]) {
      TrimStartSkips(s, i + 1);
    }
  }

  /** One past the last character before `j` that `trim()` keeps, searching no lower than `lo`. */
  function TrimEnd(s: string, lo: nat, j: nat): (k: nat)
    requires lo <= j <= |s|
    ensures lo <= k <= j
  {
    if j == lo || !IsTrimmable(s[j - 1]) then j else TrimEnd(s, lo, j - 1)
  }

  lemma {:induction false} TrimEndSkips(s: string, lo: nat, j: nat)
    requires lo <= j <= |s|
    ensures forall k :: TrimEnd(s, lo, j) <= k < j ==> IsTrimmable(s[k])
    ensures TrimEnd(s, lo, j) > lo ==> !IsTrimmable(s[TrimEnd(s, lo, j) - 1])
  {
    if j != lo && IsTrimmable(s[j - 1]) {
      TrimEndSkips(s, lo, j - 1);
    }
  }

  /** `String.trim`: drop removable characters from both ends. */
  function Trim(s: string): (r: string)
    ensures |r| <= |s|
  {
    var i := TrimStart(s, 0);
    s[i..TrimEnd(s, i, |s|)]
  }

  /**
   * What `trim()` keeps is the text between two runs of removable characters: it is empty
   * exactly for a blank line, and otherwise starts and ends with a kept character.
   */
  lemma TrimIsInfix(s: string)
    ensures Trim(s) == [] <==> IsBlank(s)
    ensures Trim(s) != [] ==> !IsTrimmable(Trim(s)[0]) && !IsTrimmable(Trim(s)[|Trim(s)| - 1])
    ensures exists i, j :: 0 <= i <= j <= |s| && Trim(s) == s[i..j]
                           && (forall k :: 0 <= k < i ==> IsTrimmable(s[k]))
                           && (forall k :: j <= k < |s| ==> IsTrimmable(s[k]))
  {
    var i := TrimStart(s, 0);
    var j := TrimEnd(s, i, |s|);
    TrimStartSkips(s, 0);
    TrimEndSkips(s, i, |s|);
    assert Trim(s) == s[i..j];
  }

  /** Trimming twice is trimming once. */
  lemma TrimIdempotent(s: string)
    ensures Trim(Trim(s)) == Trim(s)
  {
    var t := Trim(s);
    TrimIsInfix(s);
    if t != [] {
      assert TrimStart(t, 0) == 0;
      assert TrimEnd(t, 0, |t|) == |t|;
    }
  }

  // ---------------------------------------------------------------- split

  /** Index of the first comma of `s`. */
  function FirstComma(s: string): (i: nat)
    requires ',' in s
    ensures i < |s| && s[i] == ',' && ',' !in s[..i]
  {
    if s[0] == ',' then 0 else 1 + FirstComma(s[1..])
  }

  /** Every piece between commas, empty ones included: `n` commas give `n + 1` pieces. */
  function Pieces(s: string): (ps: seq<string>)
    ensures |ps| >= 1
    ensures forall k :: 0 <= k < |ps| ==> ',' !in ps[k]
    decreases |s|
  {
    if ',' !in s then [s]
    else
      var i := FirstComma(s);
      [s[..i]] + Pieces(s[i + 1..])
  }

  /** The pieces glued back together with commas. */
  function JoinWithCommas(ps: seq<string>): string
    requires |ps| >= 1
  {
    if |ps| == 1 then ps[0] else ps[0] + "," + JoinWithCommas(ps[1..])
  }

  /** Splitting loses nothing: joining the pieces gives back the line. */
  lemma {:induction false} JoinPieces(s: string)
    ensures JoinWithCommas(Pieces(s)) == s
    decreases |s|
  {
    if ',' in s {
      var i := FirstComma(s);
      var rest := Pieces(s[i + 1..]);
      var ps := Pieces(s);
      assert ps == [s[..i]] + rest;
      assert ps[0] == s[..i] && ps[1..] == rest && |ps| > 1;
      JoinPieces(s[i + 1..]);
      assert JoinWithCommas(ps) == s[..i] + "," + JoinWithCommas(rest);
      assert s == s[..i] + "," + s[i + 1..];
    }
  }

  /** Joining comma-free pieces and splitting again gives the same pieces. */
  lemma {:induction false} PiecesOfJoin(ps: seq<string>)
    requires |ps| >= 1
    requires forall k :: 0 <= k < |ps| ==> ',' !in ps[k]
    ensures Pieces(JoinWithCommas(ps)) == ps
  {
    if |ps| > 1 {
      var s := JoinWithCommas(ps);
      var rest := JoinWithCommas(ps[1..]);
      assert s == ps[0] + "," + rest;
      assert s[|ps[0]|] == ',';
      assert s[..|ps[0]|] == ps[0];
      assert ',' in s;
      var i := FirstComma(s);
      assert i == |ps[0]|;
      assert s[i + 1..] == rest;
      PiecesOfJoin(ps[1..]);
    }
  }

  /** Drop the empty strings at the end of a list of pieces. */
  function DropTrailingEmpty(ps: seq<string>): (r: seq<string>)
    ensures |r| <= |ps| && r == ps[..|r|]
    ensures r == [] || r[|r| - 1] != ""
    ensures forall k :: |r| <= k < |ps| ==> ps[k] == ""
  {
    if ps == [] || ps[|ps| - 1] != "" then ps else DropTrailingEmpty(ps[..|ps| - 1])
  }

  /**
   * `String.split(",")`: a line without a comma is returned whole (so `""` gives `[""]`);
   * otherwise the pieces between commas, with trailing empty pieces removed.
   */
  function SplitComma(s: string): (r: seq<string>)
    ensures ',' !in s ==> r == [s]
    ensures |r| <= |Pieces(s)| && r == Pieces(s)[..|r|]
    ensures ',' in s ==> r == [] || r[|r| - 1] != ""
    ensures ',' in s ==> forall k :: |r| <= k < |Pieces(s)| ==> Pieces(s)[k] == ""
  {
    if ',' !in s then [s] else DropTrailingEmpty(Pieces(s))
  }

  /** Splitting the comma-joined fields gives them back, less the empty ones at the end. */
  lemma SplitOfJoin(ps: seq<string>)
    requires |ps| >= 1
    requires forall k :: 0 <= k < |ps| ==> ',' !in ps[k]
    ensures SplitComma(JoinWithCommas(ps)) == if |ps| == 1 then ps else DropTrailingEmpty(ps)
  {
    PiecesOfJoin(ps);
    var s := JoinWithCommas(ps);
    if |ps| > 1 {
      assert s == ps[0] + "," + JoinWithCommas(ps[1..]);
      assert s[|ps[0]|] == ',';
    } else {
      assert ',' !in s;
    }
  }

  /** Trailing empty fields are dropped: this line splits into two values. */
  lemma SplitDropsTrailingEmptyFields()
    ensures SplitComma("AA1,Delta,,,") == ["AA1", "Delta"]
  {
    var ps: seq<string> := ["AA1", "Delta", "", "", ""];
    assert JoinWithCommas(ps) == "AA1,Delta,,,";
    SplitOfJoin(ps);
    var r := DropTrailingEmpty(ps);
    assert ps[1] != "" && ps[2] == ps[3] == ps[4] == "";
    assert |r| == 2;
    assert r == ps[..2] == ["AA1", "Delta"];
  }

  lemma SplitOfEmptyLine()
    ensures SplitComma("") == [""]
  {
  }

  lemma SplitOfLoneComma()
    ensures SplitComma(",") == []
  {
    assert FirstComma(",") == 0;
    assert ","[1..] == "";
    assert Pieces(",") == ["", ""];
  }

  // ---------------------------------------------------------------- parseInt

  const Int32Min: int := -0x8000_0000
  const Int32Max: int := 0x7fff_ffff

  predicate InInt32(n: int) {
    Int32Min <= n <= Int32Max
  }

  /**
   * `Integer.parseInt(s)` in radix 10: an optional '+' or '-', then at least one digit,
   * and a value that fits in 32 bits; anything else throws `NumberFormatException` (`None`).
   * No whitespace is allowed.
   */
  function ParseInt(s: string): (r: Option<int>)
    ensures r.Some? ==> InInt32(r.value)
    ensures r.Some? ==> |s| >= 1 && (IsDigit(s[0]) || s[0] == '-' || s[0] == '+')
  {
    if |s| == 0 then None
    else
      var digits := if s[0] == '-' || s[0] == '+' then s[1..] else s;
      if |digits| == 0 || !AllDigits(digits) then None
      else
        var v: int := DigitsValue(digits);
        var n := if s[0] == '-' then -v else v;
        if InInt32(n) then Some(n) else None
  }

  /** Text that is not a signed numeral, such as "14x", " 14" or "1 4", throws. */
  lemma ParseIntRejectsNonNumerals(s: string)
    requires !IsSignedNumeral(s)
    ensures ParseInt(s).None?
  {
    SignedNumeralParts(s);
  }

  /**
   * A signed numeral, with or without a sign or leading zeros, parses to the value it
   * denotes exactly when that value fits in 32 bits.
   */
  lemma ParseIntOfNumeral(s: string)
    requires IsSignedNumeral(s)
    ensures ParseInt(s) == if InInt32(NumeralValue(s)) then Some(NumeralValue(s)) else None
  {
    SignedNumeralParts(s);
  }

  /** Hours as a CSV may spell them: zero-padded, signed, or both. */
  lemma ParseIntOfPaddedHours()
    ensures ParseInt("07") == Some(7)
    ensures ParseInt("+14") == Some(14)
    ensures ParseInt("-007") == Some(-7)
  {
    ZeroPaddedRoundTrip(1, 7);
    assert "07" == seq(1, _ => '0') + NatDigits(7);
    ParseIntOfNumeral("07");
    DigitsRoundTrip(14);
    assert Unsigned("+14") == NatDigits(14);
    ParseIntOfNumeral("+14");
    ZeroPaddedRoundTrip(2, 7);
    assert Unsigned("-007") == seq(2, _ => '0') + NatDigits(7);
    ParseIntOfNumeral("-007");
  }

  /** `parseInt` reads back exactly the 32-bit integers from their decimal text. */
  lemma ParseIntOfDecimal(n: int)
    ensures ParseInt(IntToString(n)) == if InInt32(n) then Some(n) else None
  {
    var s := IntToString(n);
    if n < 0 {
      assert s[1..] == NatDigits(-n);
      DigitsRoundTrip(-n);
    } else {
      DigitsRoundTrip(n);
    }
  }

  // ---------------------------------------------------------------- case-insensitive find

  /** Java's default case-insensitive matching folds only the ASCII letters. */
  function AsciiLower(c: char): char {
    if 'A' <= c <= 'Z' then (c as int + 32) as char else c
  }

  function LowerAll(s: string): (r: string)
    ensures |r| == |s|
    ensures forall k :: 0 <= k < |s| ==> r[k] == AsciiLower(s[k])
  {
    seq(|s|, k requires 0 <= k < |s| => AsciiLower(s[k]))
  }

  /** `needle` occurs in `hay` at position `i`, character by character. */
  predicate OccursAt(hay: string, needle: string, i: int) {
    0 <= i && i + |needle| <= |hay| && hay[i..i + |needle|] == needle
  }

  /** Exact substring search (`Matcher.find` of a pattern with no metacharacters). */
  predicate Contains(hay: string, needle: string) {
    exists i | 0 <= i <= |hay| - |needle| :: OccursAt(hay, needle, i)
  }

  predicate MatchesIgnoreCaseAt(hay: string, needle: string, i: int) {
    0 <= i && i + |needle| <= |hay|
    && forall j :: 0 <= j < |needle| ==> AsciiLower(hay[i + j]) == AsciiLower(needle[j])
  }

  /** Search under the `(?i)` flag, character by character. */
  predicate ContainsIgnoreCase(hay: string, needle: string) {
    exists i | 0 <= i <= |hay| - |needle| :: MatchesIgnoreCaseAt(hay, needle, i)
  }

  /** Case-insensitive search is exact search on the lower-cased texts. */
  lemma ContainsIgnoreCaseIsLoweredContains(hay: string, needle: string)
    ensures ContainsIgnoreCase(hay, needle) <==> Contains(LowerAll(hay), LowerAll(needle))
  {
    var h, n := LowerAll(hay), LowerAll(needle);
    if ContainsIgnoreCase(hay, needle) {
      var i :| 0 <= i <= |hay| - |needle| && MatchesIgnoreCaseAt(hay, needle, i);
      assert h[i..i + |n|] == n;
      assert OccursAt(h, n, i);
    }
    if Contains(h, n) {
      var i :| 0 <= i <= |h| - |n| && OccursAt(h, n, i);
      forall j | 0 <= j < |needle| ensures AsciiLower(hay[i + j]) == AsciiLower(needle[j]) {
        assert h[i..i + |n|][j] == n[j];
      }
      assert MatchesIgnoreCaseAt(hay, needle, i);
    }
  }
}
