/**
 * The high-score text: get_high_score reads the stored text, strips white space and takes it as a
 * number when it is all digits (otherwise 0); update_high_score writes str(score) only when the
 * finished run beat the stored value.
 */
module HighScore {
  import opened Wrappers

  /** Python's str.isspace characters, the ones str.strip() removes. */
  predicate IsSpace(c: char)
  {
    ('\t' <= c <= '\r') || ('\U{1c}' <= c <= ' ') || c == '\U{85}' || c == '\U{a0}' ||
    c == '\U{1680}' || ('\U{2000}' <= c <= '\U{200a}') || c == '\U{2028}' || c == '\U{2029}' ||
    c == '\U{202f}' || c == '\U{205f}' || c == '\U{3000}'
  }

  /** The leading white space removed by strip(): only white space goes, up to the first other character. */
  function StripLeft(s: string): (r: string)
    ensures |r| <= |s| && r == s[|s| - |r|..]
    ensures r == [] || !IsSpace(r[0])
    ensures forall i :: 0 <= i < |s| - |r| ==> IsSpace(s[i])
  {
    if |s| > 0 && IsSpace(s[0]) then StripLeft(s[1..]) else s
  }

  /** The trailing white space removed by strip(): only white space goes, back to the last other character. */
  function StripRight(s: string): (r: string)
    ensures |r| <= |s| && r == s[..|r|]
    ensures r == [] || !IsSpace(r[|r| - 1])
    ensures forall i :: |r| <= i < |s| ==> IsSpace(s[i])
  {
    if |s| > 0 && IsSpace(s[|s| - 1]) then StripRight(s[..|s| - 1]) else s
  }

  /** str.strip() */
  function Strip(s: string): string
  {
    StripRight(StripLeft(s))
  }

  predicate IsDigitChar(c: char)
  {
    '0' <= c <= '9'
  }

  /** str.isdigit(): not empty, and every character a digit. */
  predicate IsDigits(s: string)
  {
    |s| > 0 && forall i :: 0 <= i < |s| ==> IsDigitChar(s[i])
  }

  function DigitValue(c: char): nat
    requires IsDigitChar(c)
  {
    (c as int) - ('0' as int)
  }

  function DigitChar(d: nat): (c: char)
    requires d < 10
    ensures IsDigitChar(c) && DigitValue(c) == d
  {
    (('0' as int) + d) as char
  }

  /** int() of a string of decimal digits. */
  function DigitsValue(s: string): nat
    requires forall i :: 0 <= i < |s| ==> IsDigitChar(s[i])
    decreases |s|
  {
    if |s| == 0 then 0 else DigitsValue(s[..|s| - 1]) * 10 + DigitValue(s[|s| - 1])
  }

  /** The value read from the stored text: `int(val) if val.isdigit() else 0` on the stripped text. */
  function ParseHighScore(text: string): (r: nat)
    ensures r == 0 || IsDigits(Strip(text))
  {
    var v := Strip(text);
    if IsDigits(v) then DigitsValue(v) else 0
  }

  /** get_high_score: a missing file is created holding "0", so it reads as 0. */
  function GetHighScore(file: Option<string>): (r: nat)
    ensures file.None? ==> r == 0
    ensures file.Some? ==> r == ParseHighScore(file.value)
  {
    match file
    case None => 0
    case Some(text) => ParseHighScore(text)
  }

  /** str(n) for a non-negative n. */
  function Decimal(n: nat): (s: string)
    ensures IsDigits(s)
    decreases n
  {
    if n < 10 then [DigitChar(n)] else Decimal(n / 10) + [DigitChar(n % 10)]
  }

  /** Reading back what was written gives the number written. */
  lemma {:induction false} DecimalRoundTrip(n: nat)
    ensures DigitsValue(Decimal(n)) == n
    decreases n
  {
    if n >= 10 {
      var s := Decimal(n);
      assert s[..|s| - 1] == Decimal(n / 10);
      DecimalRoundTrip(n / 10);
    }
  }

  /** The text written for a score parses to that score. */
  lemma ParseDecimal(n: nat)
    ensures ParseHighScore(Decimal(n)) == n
  {
    var s := Decimal(n);
    assert !IsSpace(s[0]) && !IsSpace(s[|s| - 1]) by {
      assert IsDigitChar(s[0]) && IsDigitChar(s[|s| - 1]);
    }
    assert StripLeft(s) == s;
    assert StripRight(s) == s;
    DecimalRoundTrip(n);
  }

  /** Leading white space in front of a text that starts with another character is stripped off exactly. */
  lemma {:induction false} StripLeftPadding(a: string, x: string)
    requires forall i :: 0 <= i < |a| ==> IsSpace(a[i])
    requires |x| > 0 && !IsSpace(x[0])
    ensures StripLeft(a + x) == x
    decreases |a|
  {
    if |a| == 0 {
      assert a + x == x;
    } else {
      assert (a + x)[0] == a[0];
      assert (a + x)[1..] == a[1..] + x;
      StripLeftPadding(a[1..], x);
    }
  }

  /** Trailing white space behind a text that ends with another character is stripped off exactly. */
  lemma {:induction false} StripRightPadding(x: string, b: string)
    requires forall i :: 0 <= i < |b| ==> IsSpace(b[i])
    requires |x| > 0 && !IsSpace(x[|x| - 1])
    ensures StripRight(x + b) == x
    decreases |b|
  {
    if |b| == 0 {
      assert x + b == x;
    } else {
      assert (x + b)[|x + b| - 1] == b[|b| - 1];
      assert (x + b)[..|x + b| - 1] == x + b[..|b| - 1];
      StripRightPadding(x, b[..|b| - 1]);
    }
  }

  /** White space around the written number is ignored: a + str(n) + b reads as n for blank a and b. */
  lemma ParsePadded(a: string, n: nat, b: string)
    requires forall i :: 0 <= i < |a| ==> IsSpace(a[i])
    requires forall i :: 0 <= i < |b| ==> IsSpace(b[i])
    ensures ParseHighScore(a + Decimal(n) + b) == n
  {
    var d := Decimal(n);
    assert IsDigitChar(d[0]) && IsDigitChar(d[|d| - 1]);
    assert a + d + b == a + (d + b);
    assert (d + b)[0] == d[0];
    StripLeftPadding(a, d + b);
    StripRightPadding(d, b);
    DecimalRoundTrip(n);
  }

  /**
   * The stored text after update_high_score(score): str(score) when the score beats the stored value,
   * otherwise what get_high_score left there ("0" for a file that was missing). The stored value
   * afterwards is the larger of the two.
   */
  function StoredAfterRun(file: Option<string>, score: int): (text: string)
    ensures ParseHighScore(text) == if score > GetHighScore(file) then score else GetHighScore(file)
    ensures score <= GetHighScore(file) ==> text == (if file.None? then "0" else file.value)
  {
    if score > GetHighScore(file) then
      ParseDecimal(score);
      Decimal(score)
    else
      match file
      case None => assert ParseHighScore("0") == 0 by { ParseDecimal(0); } "0"
      case Some(t) => t
  }
}
