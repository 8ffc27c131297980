/// Character classes and decimal numerals.
///
/// The lexer's regular expressions `\d+` and `\w+` match ASCII digits and
/// ASCII word characters only; each rule is a character-class predicate plus
/// a maximal-munch scan (`RunEnd`).  Ruby's `String#to_i` on a digit run and
/// `Integer#to_s` (string interpolation of a number) are `DecimalValue` and
/// `NatToString`/`IntToString`.
module Text {

  /** `\d` */
  predicate IsDigit(c: char) {
    '0' <= c <= '9'
  }

  /** `\w`: `[A-Za-z0-9_]` */
  predicate IsWordChar(c: char) {
    'a' <= c <= 'z' || 'A' <= c <= 'Z' || IsDigit(c) || c == '_'
  }

  predicate AllDigits(s: string) {
    forall k :: 0 <= k < |s| ==> IsDigit(s[k])
  }

  /** The end of the longest run of `inClass` characters that starts at `i`. */
  function RunEnd(s: string, i: nat, inClass: char -> bool): (j: nat)
    requires i <= |s|
    ensures i <= j <= |s|
    ensures forall k :: i <= k < j ==> inClass(s[k])
    ensures j == |s| || !inClass(s[j])
    decreases |s| - i
  {
    if i < |s| && inClass(s[i]) then RunEnd(s, i + 1, inClass) else i
  }

  /** The text of a maximal digit run is all digits. */
  lemma DigitRun(s: string, i: nat)
    requires i <= |s|
    ensures AllDigits(s[i..RunEnd(s, i, IsDigit)])
  {
    var e := RunEnd(s, i, IsDigit);
    forall k | 0 <= k < e - i ensures IsDigit(s[i..e][k]) {
      assert s[i..e][k] == s[i + k];
    }
  }

  /** A maximal run is determined by its two defining properties. */
  lemma RunEndIs(s: string, i: nat, j: nat, inClass: char -> bool)
    requires i <= j <= |s|
    requires forall k :: i <= k < j ==> inClass(s[k])
    requires j == |s| || !inClass(s[j])
    ensures RunEnd(s, i, inClass) == j
  {
  }

  function DigitValue(c: char): (d: nat)
    requires IsDigit(c)
    ensures d < 10
  {
    c as int - '0' as int
  }

  function DigitChar(d: nat): (c: char)
    requires d < 10
    ensures IsDigit(c) && DigitValue(c) == d
  {
    ('0' as int + d) as char
  }

  /** Ruby's `to_i` on a string of decimal digits. */
  function DecimalValue(ds: string): nat
    requires AllDigits(ds)
  {
    if ds == [] then 0
    else DecimalValue(ds[..|ds| - 1]) * 10 + DigitValue(ds[|ds| - 1])
  }

  /** The decimal rendering of `n` (Ruby's `Integer#to_s`): a non-empty digit
      string without leading zeros that `DecimalValue` reads back as `n`. */
  function NatToString(n: nat): (s: string)
    ensures |s| > 0 && AllDigits(s)
    ensures DecimalValue(s) == n
    ensures s[0] == '0' ==> n == 0 && s == "0"
  {
    if n < 10 then [DigitChar(n)]
    else
      var p := NatToString(n / 10);
      var s := p + [DigitChar(n % 10)];
      assert s[..|s| - 1] == p;
      s
  }

  /** `Integer#to_s` for any integer: a minus sign before negative values. */
  function IntToString(i: int): (s: string)
    ensures |s| > 0
    ensures s[0] == '-' <==> i < 0
    ensures i >= 0 ==> s == NatToString(i)
    ensures i < 0 ==> s[1..] == NatToString(-i)
  {
    if i < 0 then "-" + NatToString(-i) else NatToString(i)
  }

  /** Reading back a canonical numeral restores it exactly. */
  lemma {:induction false} DecimalRoundTrip(ds: string)
    requires AllDigits(ds) && |ds| > 0
    requires ds[0] != '0' || |ds| == 1
    ensures NatToString(DecimalValue(ds)) == ds
    decreases |ds|
  {
    var n := DecimalValue(ds);
    var p := ds[..|ds| - 1];
    var d := DigitValue(ds[|ds| - 1]);
    if |ds| == 1 {
      assert DecimalValue(p) == 0;
      assert n == d;
      assert NatToString(n) == [DigitChar(d)];
      assert DigitChar(d) == ds[0];
    } else {
      DecimalRoundTrip(p);
      assert DecimalValue(p) > 0;
      assert n >= 10;
      assert n / 10 == DecimalValue(p) && n % 10 == d;
      assert DigitChar(d) == ds[|ds| - 1];
      assert NatToString(n) == NatToString(n / 10) + [DigitChar(n % 10)];
      assert ds == p + [ds[|ds| - 1]];
    }
  }
}
