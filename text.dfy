/**
 * Characters and decimal numerals as the Python 2 scripts see them: input
 * lines and file names are byte strings, so `str.isalpha` and `str.isdigit`
 * accept ASCII letters and digits only, `int(s)` reads a decimal numeral and
 * `str(n)` writes one.
 */
module Text {

  /** `c.isalpha()` on a one-byte string. */
  predicate IsAlpha(c: char) {
    'A' <= c <= 'Z' || 'a' <= c <= 'z'
  }

  /** `c.isdigit()` on a one-byte string. */
  predicate IsDigit(c: char) {
    '0' <= c <= '9'
  }

  predicate AllAlpha(s: string) {
    forall i :: 0 <= i < |s| ==> IsAlpha(s[i])
  }

  predicate AllDigits(s: string) {
    forall i :: 0 <= i < |s| ==> IsDigit(s[i])
  }

  /** A maximal letter run the tokenizer can produce: non-empty, letters only. */
  predicate IsWord(s: string) {
    |s| > 0 && AllAlpha(s)
  }

  /** A digit run the tokenizer can produce: non-empty, digits only. */
  predicate IsNumeral(s: string) {
    |s| > 0 && AllDigits(s)
  }

  function DigitValue(c: char): (d: nat)
    requires IsDigit(c)
    ensures d < 10
  {
    (c as int) - ('0' as int)
  }

  function DigitChar(d: nat): (c: char)
    requires d < 10
    ensures IsDigit(c) && DigitValue(c) == d
  {
    ('0' as int + d) as char
  }

  /** `int(s)` for a string of decimal digits; leading zeros contribute nothing. */
  function NumeralValue(s: string): nat
    requires AllDigits(s)
  {
    if s == [] then 0 else 10 * NumeralValue(s[..|s| - 1]) + DigitValue(s[|s| - 1])
  }

  /** `str(n)` for a natural number: its decimal numeral, which `int` reads back. */
  function NatToString(n: nat): (s: string)
    ensures IsNumeral(s)
    ensures NumeralValue(s) == n
    ensures s[0] != '0' || n == 0
  {
    if n < 10 then [DigitChar(n)]
    else
      var prefix := NatToString(n / 10);
      var s := prefix + [DigitChar(n % 10)];
      assert s[..|s| - 1] == prefix;
      s
  }

  /** A leading zero does not change the value `int` reads. */
  lemma {:induction false} LeadingZeroAbsorbed(s: string)
    requires AllDigits(s)
    ensures AllDigits("0" + s) && NumeralValue("0" + s) == NumeralValue(s)
  {
    var t := "0" + s;
    if s != [] {
      assert t[..|t| - 1] == "0" + s[..|s| - 1];
      LeadingZeroAbsorbed(s[..|s| - 1]);
    } else {
      assert t[..|t| - 1] == [];
    }
  }
}
