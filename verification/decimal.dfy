/** Decimal rendering of a Java thread id, as `long + String` concatenation
    produces it, with its inverse and the facts the registry key relies on. */
module Decimal {

  predicate IsDigit(c: char) {
    '0' <= c <= '9'
  }

  predicate AllDigits(s: string) {
    forall i :: 0 <= i < |s| ==> IsDigit(s[i])
  }

  /** The character of one decimal digit. */
  function DigitChar(d: nat): (c: char)
    requires d < 10
    ensures IsDigit(c)
    ensures c as int - '0' as int == d
  {
    ('0' as int + d) as char
  }

  /** The numeric value of a digit character. */
  function DigitValue(c: char): (d: nat)
    requires IsDigit(c)
    ensures d < 10
    ensures DigitChar(d) == c
  {
    c as int - '0' as int
  }

  /** `Long.toString(n)` for a non-negative id: most significant digit
      first, no leading zeros, never empty. */
  function ToDecimal(n: nat): (s: string)
    ensures |s| > 0
    ensures AllDigits(s)
    ensures |s| > 1 ==> s[0] != '0'
    decreases n
  {
    if n < 10 then [DigitChar(n)] else ToDecimal(n / 10) + [DigitChar(n % 10)]
  }

  /** Reads a string of digits back as a number. */
  function ParseDecimal(s: string): nat
    requires AllDigits(s)
    decreases |s|
  {
    if |s| == 0 then 0 else ParseDecimal(s[..|s| - 1]) * 10 + DigitValue(s[|s| - 1])
  }

  /** Parsing undoes rendering. */
  lemma {:induction false} ParseToDecimal(n: nat)
    ensures ParseDecimal(ToDecimal(n)) == n
    decreases n
  {
    var s := ToDecimal(n);
    if n < 10 {
      assert s[..|s| - 1] == [];
    } else {
      ParseToDecimal(n / 10);
      assert s[..|s| - 1] == ToDecimal(n / 10);
    }
  }

  /** Different ids render differently. */
  lemma ToDecimalInjective(a: nat, b: nat)
    ensures ToDecimal(a) == ToDecimal(b) ==> a == b
  {
    ParseToDecimal(a);
    ParseToDecimal(b);
  }

  /** The length of the run of digits a string starts with. */
  function LeadingDigits(w: string): (n: nat)
    ensures n <= |w|
    ensures AllDigits(w[..n])
    ensures n < |w| ==> !IsDigit(w[n])
    decreases |w|
  {
    if |w| == 0 || !IsDigit(w[0]) then 0 else 1 + LeadingDigits(w[1..])
  }

  /** Digits followed by a non-digit: the digit run ends exactly where the
      digits end. */
  lemma {:induction false} LeadingDigitsOfConcat(s: string, x: string)
    requires AllDigits(s)
    requires |x| > 0 && !IsDigit(x[0])
    ensures LeadingDigits(s + x) == |s|
    decreases |s|
  {
    if |s| == 0 {
      assert s + x == x;
    } else {
      assert (s + x)[1..] == s[1..] + x;
      LeadingDigitsOfConcat(s[1..], x);
    }
  }

  /** A rendered id followed by text that starts with a non-digit can be
      split back into the id and the text in only one way. */
  lemma DigitPrefixUnique(a: nat, x: string, b: nat, y: string)
    requires |x| > 0 && !IsDigit(x[0])
    requires |y| > 0 && !IsDigit(y[0])
    requires ToDecimal(a) + x == ToDecimal(b) + y
    ensures a == b && x == y
  {
    var s, t := ToDecimal(a), ToDecimal(b);
    LeadingDigitsOfConcat(s, x);
    LeadingDigitsOfConcat(t, y);
    assert |s| == |t|;
    assert s == (s + x)[..|s|];
    assert t == (t + y)[..|t|];
    assert x == (s + x)[|s|..];
    assert y == (t + y)[|t|..];
    ToDecimalInjective(a, b);
  }
}
