/**
 * Numbers as the calculator reads and combines them. Java doubles are
 * modelled as exact reals: `Double.parseDouble` on a run of digits and dots
 * gives the exact decimal value the text denotes, and the two operations whose
 * floating-point results cannot be stated exactly (`%` on doubles and
 * `Math.pow`) are supplied as given functions.
 */
module Numerals {
  import opened Wrappers

  /** The floating-point operations taken as given: Java's `a % b` on doubles and `Math.pow(a, b)`. */
  datatype FloatOps = FloatOps(rem: (real, real) -> real, pow: (real, real) -> real)

  /** `Character.isDigit`, restricted to ASCII. */
  predicate IsDigit(c: char) {
    '0' <= c <= '9'
  }

  /** A character that may belong to a number token: a digit or a decimal point. */
  predicate IsNumberChar(c: char) {
    IsDigit(c) || c == '.'
  }

  predicate AllDigits(s: string) {
    forall k :: 0 <= k < |s| ==> IsDigit(s[k])
  }

  predicate IsNumberRun(s: string) {
    forall k :: 0 <= k < |s| ==> IsNumberChar(s[k])
  }

  predicate HasDigit(s: string) {
    exists k :: 0 <= k < |s| && IsDigit(s[k])
  }

  predicate AtMostOneDot(s: string) {
    forall i, j :: 0 <= i < j < |s| && s[i] == '.' ==> s[j] != '.'
  }

  function DigitValue(c: char): nat
    requires IsDigit(c)
  {
    c as int - '0' as int
  }

  /** The natural number written by a string of decimal digits (0 for the empty string). */
  function DigitsValue(s: string): nat
    requires AllDigits(s)
  {
    if s == [] then 0 else DigitsValue(s[..|s| - 1]) * 10 + DigitValue(s[|s| - 1])
  }

  function Pow10(n: nat): (p: nat)
    ensures p >= 1
  {
    if n == 0 then 1 else 10 * Pow10(n - 1)
  }

  /** The position of the first decimal point, or the length when there is none. */
  function DotIndex(s: string): (i: nat)
    ensures i <= |s|
    ensures i < |s| ==> s[i] == '.'
    ensures forall k :: 0 <= k < i ==> s[k] != '.'
  {
    if s == [] || s[0] == '.' then 0 else 1 + DotIndex(s[1..])
  }

  /**
   * `Double.parseDouble` on a run of digits and decimal points, as the
   * expression evaluator calls it: the run is accepted exactly when it holds at
   * least one digit and at most one point (so "5", "5." and ".5" parse while
   * "." and "1.2.3" throw `NumberFormatException`), and then denotes the
   * decimal value whole-part + fraction-part / 10^(fraction length).
   */
  function ParseDecimal(token: string): (r: Option<real>)
    requires IsNumberRun(token)
    ensures r.Some? <==> HasDigit(token) && AtMostOneDot(token)
    ensures r.Some? ==> r.value >= 0.0
  {
    if !HasDigit(token) || !AtMostOneDot(token) then None
    else
      var p := DotIndex(token);
      var whole := token[..p];
      var fraction := if p < |token| then token[p + 1..] else "";
      assert AllDigits(whole);
      assert AllDigits(fraction) by {
        forall k | 0 <= k < |fraction| ensures IsDigit(fraction[k]) {
          assert fraction[k] == token[p + 1 + k];
        }
      }
      Some(DigitsValue(whole) as real + DigitsValue(fraction) as real / Pow10(|fraction|) as real)
  }

  /** The decimal digits of `n` without leading zeros, as `Long.toString` writes them. */
  function NatText(n: nat): (s: string)
    ensures |s| >= 1 && AllDigits(s)
  {
    if n < 10 then [('0' as int + n) as char]
    else NatText(n / 10) + [('0' as int + n % 10) as char]
  }

  lemma {:induction false} NatTextValue(n: nat)
    ensures DigitsValue(NatText(n)) == n
  {
    if n >= 10 {
      var s := NatText(n);
      assert s[..|s| - 1] == NatText(n / 10);
      NatTextValue(n / 10);
    }
  }

  /** Reading back the text of a whole number gives that number exactly. */
  lemma NatTextRoundTrip(n: nat)
    ensures IsNumberRun(NatText(n))
    ensures ParseDecimal(NatText(n)) == Some(n as real)
  {
    var s := NatText(n);
    assert IsDigit(s[0]);
    assert DotIndex(s) == |s|;
    assert s[..|s|] == s;
    NatTextValue(n);
  }
}
