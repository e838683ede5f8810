/**
 * The three text checks of the calculator's input validator. Each is a null
 * check, a `trim`, and a match of the whole trimmed text against a fixed
 * regular expression; the regular expressions are written here directly as
 * predicates on strings.
 *
 *   NUMBER_REGEX   -?\d+(\.\d+)?
 *   ZERO_PATTERN   0+(\.0+)?
 *   INTEGER_REGEX  -?\d+
 */
module InputValidator {
  import opened Wrappers
  import opened JavaText
  import opened Numerals

  /** The two character classes the patterns repeat: `\d` and the literal `0`. */
  datatype CharClass = Digit | Zero

  predicate InClass(c: char, p: CharClass) {
    match p
    case Digit => IsDigit(c)
    case Zero => c == '0'
  }

  /** The length of the longest prefix of `s` whose characters all satisfy `p`. */
  function RunLength(s: string, p: CharClass): (n: nat)
    ensures n <= |s|
    ensures forall k :: 0 <= k < n ==> InClass(s[k], p)
    ensures n < |s| ==> !InClass(s[n], p)
  {
    if s == [] || !InClass(s[0], p) then 0 else 1 + RunLength(s[1..], p)
  }

  /** `X+`: one or more characters, each of class `p`. */
  predicate OneOrMore(s: string, p: CharClass) {
    |s| >= 1 && forall k :: 0 <= k < |s| ==> InClass(s[k], p)
  }

  /**
   * `X+(\.X+)?` for a class `p` that does not contain the point: the greedy
   * run of `p` is the only way to match `X+`, so the rest must be empty or a
   * point followed by `X+`.
   */
  predicate RunWithOptionalFraction(t: string, p: CharClass) {
    var n := RunLength(t, p);
    n >= 1 && (n == |t| || (t[n] == '.' && OneOrMore(t[n + 1..], p)))
  }

  /** `-?`: drops one leading minus sign, if there is one. */
  function DropMinus(t: string): (u: string)
    ensures u == t || (|t| >= 1 && t[0] == '-' && u == t[1..])
  {
    if |t| >= 1 && t[0] == '-' then t[1..] else t
  }

  /** The whole of `t` matches `-?\d+(\.\d+)?`. */
  predicate MatchesNumber(t: string) {
    RunWithOptionalFraction(DropMinus(t), Digit)
  }

  /** The whole of `t` matches `0+(\.0+)?`. */
  predicate MatchesZero(t: string) {
    RunWithOptionalFraction(t, Zero)
  }

  /** The whole of `t` matches `-?\d+`. */
  predicate MatchesInteger(t: string) {
    OneOrMore(DropMinus(t), Digit)
  }

  /** `isValidNumber`: false for null or blank input, otherwise the trimmed text matches NUMBER_REGEX. */
  predicate IsValidNumber(input: Option<string>) {
    input.Some? && !IsBlank(input.value) && MatchesNumber(Trim(input.value))
  }

  /** `isZeroOnly`: non-null input whose trimmed text matches ZERO_PATTERN. */
  predicate IsZeroOnly(input: Option<string>) {
    input.Some? && MatchesZero(Trim(input.value))
  }

  /** `isInteger`: non-null input whose trimmed text matches INTEGER_REGEX. */
  predicate IsInteger(input: Option<string>) {
    input.Some? && MatchesInteger(Trim(input.value))
  }

  /**
   * The language of NUMBER_REGEX written as a concatenation: an optional minus,
   * a non-empty digit string, and either nothing or a point and a non-empty
   * digit string.
   */
  ghost predicate NumberParts(t: string, minus: bool, whole: string, fraction: string) {
    && t == (if minus then "-" else "") + whole + fraction
    && OneOrMore(whole, Digit)
    && (fraction == "" || (fraction[0] == '.' && OneOrMore(fraction[1..], Digit)))
  }

  lemma {:induction false} RunLengthOfPrefix(s: string, t: string, p: CharClass)
    requires forall k :: 0 <= k < |s| ==> InClass(s[k], p)
    requires t == [] || !InClass(t[0], p)
    ensures RunLength(s + t, p) == |s|
  {
    if s != [] {
      assert (s + t)[0] == s[0];
      assert (s + t)[1..] == s[1..] + t;
      RunLengthOfPrefix(s[1..], t, p);
    } else {
      assert s + t == t;
    }
  }

  lemma GreedyMatchHasParts(t: string)
    requires MatchesNumber(t)
    ensures NumberParts(t, |t| >= 1 && t[0] == '-', DropMinus(t)[..RunLength(DropMinus(t), Digit)],
                        DropMinus(t)[RunLength(DropMinus(t), Digit)..])
  {
    var u := DropMinus(t);
    var n := RunLength(u, Digit);
    assert u == u[..n] + u[n..];
  }

  lemma PartsMatchGreedily(t: string, minus: bool, whole: string, fraction: string)
    requires NumberParts(t, minus, whole, fraction)
    ensures MatchesNumber(t)
  {
    var u := DropMinus(t);
    if minus {
      assert t == "-" + (whole + fraction);
      assert u == whole + fraction;
    } else {
      assert t == whole + fraction;
      assert t[0] == whole[0];
      assert u == whole + fraction;
    }
    RunLengthOfPrefix(whole, fraction, Digit);
    if fraction != "" {
      assert u[|whole|] == fraction[0];
      assert u[|whole| + 1..] == fraction[1..];
    }
  }

  /** The greedy predicate for NUMBER_REGEX accepts exactly the strings of the regular expression's language. */
  lemma NumberRegexLanguage(t: string)
    ensures MatchesNumber(t) <==> exists minus, whole, fraction :: NumberParts(t, minus, whole, fraction)
  {
    if MatchesNumber(t) {
      GreedyMatchHasParts(t);
    }
    if exists m, w, f :: NumberParts(t, m, w, f) {
      var m, w, f :| NumberParts(t, m, w, f);
      PartsMatchGreedily(t, m, w, f);
    }
  }

  /**
   * The language of `X+(\.X+)?` written as a concatenation: a non-empty run
   * of class `p`, then either nothing or a point and a non-empty run of `p`.
   */
  ghost predicate FractionParts(u: string, p: CharClass, whole: string, fraction: string) {
    && u == whole + fraction
    && OneOrMore(whole, p)
    && (fraction == "" || (fraction[0] == '.' && OneOrMore(fraction[1..], p)))
  }

  /** The greedy predicate for `X+(\.X+)?` accepts exactly the strings of its language. */
  lemma RunWithOptionalFractionLanguage(u: string, p: CharClass)
    ensures RunWithOptionalFraction(u, p) <==> exists whole, fraction :: FractionParts(u, p, whole, fraction)
  {
    if RunWithOptionalFraction(u, p) {
      var n := RunLength(u, p);
      assert u == u[..n] + u[n..];
      assert FractionParts(u, p, u[..n], u[n..]);
    }
    if exists w, f :: FractionParts(u, p, w, f) {
      var w, f :| FractionParts(u, p, w, f);
      assert !InClass('.', p);
      RunLengthOfPrefix(w, f, p);
      if f != "" {
        assert u[|w|] == f[0];
        assert u[|w| + 1..] == f[1..];
      }
    }
  }

  /** The greedy predicate for ZERO_PATTERN accepts exactly the strings of `0+(\.0+)?`. */
  lemma ZeroRegexLanguage(t: string)
    ensures MatchesZero(t) <==> exists whole, fraction :: FractionParts(t, Zero, whole, fraction)
  {
    RunWithOptionalFractionLanguage(t, Zero);
  }

  /** The language of INTEGER_REGEX written as a concatenation: an optional minus and a non-empty digit string. */
  ghost predicate IntegerParts(t: string, minus: bool, digits: string) {
    t == (if minus then "-" else "") + digits && OneOrMore(digits, Digit)
  }

  /** The predicate for INTEGER_REGEX accepts exactly the strings of `-?\d+`. */
  lemma IntegerRegexLanguage(t: string)
    ensures MatchesInteger(t) <==> exists minus, digits :: IntegerParts(t, minus, digits)
  {
    if MatchesInteger(t) {
      var minus := |t| >= 1 && t[0] == '-';
      var digits := DropMinus(t);
      assert t == (if minus then "-" else "") + digits;
      assert IntegerParts(t, minus, digits);
    }
    if exists m, d :: IntegerParts(t, m, d) {
      var m, d :| IntegerParts(t, m, d);
      if m {
        assert t[1..] == d;
      } else {
        assert t[0] == d[0];
      }
    }
  }

  lemma IntegerTextIsNumber(t: string)
    requires MatchesInteger(t)
    ensures MatchesNumber(t) && t != []
  {
    var u := DropMinus(t);
    assert u + [] == u;
    RunLengthOfPrefix(u, [], Digit);
  }

  lemma ZeroTextIsNumber(t: string)
    requires MatchesZero(t)
    ensures MatchesNumber(t) && t != []
  {
    assert InClass(t[0], Zero);
    assert DropMinus(t) == t;
    var n := RunLength(t, Zero);
    if n < |t| {
      assert t == t[..n] + t[n..];
      RunLengthOfPrefix(t[..n], t[n..], Digit);
      assert t[n + 1..] == t[n..][1..];
    } else {
      assert t + [] == t;
      RunLengthOfPrefix(t, [], Digit);
    }
  }

  /** Every string accepted by `isInteger` or by `isZeroOnly` is accepted by `isValidNumber`. */
  lemma IntegerAndZeroAreNumbers(input: Option<string>)
    ensures IsInteger(input) ==> IsValidNumber(input)
    ensures IsZeroOnly(input) ==> IsValidNumber(input)
  {
    if IsInteger(input) {
      IntegerTextIsNumber(Trim(input.value));
    }
    if IsZeroOnly(input) {
      ZeroTextIsNumber(Trim(input.value));
    }
  }

  /** All three checks ignore leading and trailing characters at or below U+0020. */
  lemma PaddingIgnored(pre: string, s: string, post: string)
    requires AllTrimmable(pre) && AllTrimmable(post)
    ensures IsValidNumber(Some(pre + s + post)) == IsValidNumber(Some(s))
    ensures IsZeroOnly(Some(pre + s + post)) == IsZeroOnly(Some(s))
    ensures IsInteger(Some(pre + s + post)) == IsInteger(Some(s))
  {
    TrimIgnoresPadding(pre, s, post);
  }

  /** Null and blank input are never valid numbers. */
  lemma NullOrBlankIsNotANumber(input: Option<string>)
    requires input.None? || AllTrimmable(input.value)
    ensures !IsValidNumber(input)
  {
    if input.Some? {
      BlankIffAllTrimmable(input.value);
    }
  }

  /** Text that matches NUMBER_REGEX is, after its optional minus, a run that `Double.parseDouble` reads as a decimal. */
  lemma {:induction false} NumberTextParses(t: string)
    requires MatchesNumber(t)
    ensures IsNumberRun(DropMinus(t))
    ensures ParseDecimal(DropMinus(t)).Some?
  {
    var u := DropMinus(t);
    var n := RunLength(u, Digit);
    assert IsDigit(u[0]);
    forall k | 0 <= k < |u| ensures IsNumberChar(u[k]) && (u[k] == '.' ==> k == n) {
      if k > n {
        assert u[k] == u[n + 1..][k - n - 1];
      }
    }
  }

  /**
   * `Double.parseDouble` on text that `isValidNumber` accepts (the parser
   * trims the text itself): the decimal value of the digits, negated when a
   * minus sign leads.
   */
  function ParseValidNumber(input: string): (v: real)
    requires IsValidNumber(Some(input))
  {
    var t := Trim(input);
    var u := DropMinus(t);
    NumberTextParses(t);
    var magnitude := ParseDecimal(u).value;
    if u == t then magnitude else -magnitude
  }

  /** The decimal text of a whole number, with or without a minus sign, is a valid number and reads back as that number. */
  lemma WholeNumberRoundTrip(n: nat)
    ensures IsValidNumber(Some(NatText(n))) && ParseValidNumber(NatText(n)) == n as real
    ensures IsValidNumber(Some("-" + NatText(n))) && ParseValidNumber("-" + NatText(n)) == -(n as real)
  {
    var s := NatText(n);
    NatTextRoundTrip(n);
    UntrimmedEnds(s);
    assert DropMinus(s) == s;
    assert s + [] == s;
    RunLengthOfPrefix(s, [], Digit);
    var m := "-" + s;
    UntrimmedEnds(m);
    assert DropMinus(m) == s;
  }

  /** Text that neither starts nor ends with a character at or below U+0020 is its own trim. */
  lemma UntrimmedEnds(s: string)
    requires s != [] && !IsTrimmable(s[0]) && !IsTrimmable(s[|s| - 1])
    ensures Trim(s) == s && !IsBlank(s)
  {
    assert TrimStart(s) == s;
  }

  /** Sample inputs: a trailing point, a leading point and a plus sign are rejected; a signed decimal is accepted. */
  lemma NumberExamples()
    ensures !IsValidNumber(Some("1."))
    ensures !IsValidNumber(Some(".5"))
    ensures !IsValidNumber(Some("+1"))
    ensures IsValidNumber(Some("-12.5"))
  {
    assert Trim("1.") == "1.";
    assert RunLength("1.", Digit) == 1;
    assert Trim(".5") == ".5";
    assert Trim("+1") == "+1";
    assert Trim("-12.5") == "-12.5";
    assert DropMinus("-12.5") == "12.5";
    assert RunLength("12.5", Digit) == 2;
    assert "12.5"[3..] == "5";
  }

  /** Sample inputs: "0." and "-0" are not zero-only, "000" and "0.00" are. */
  lemma ZeroExamples()
    ensures !IsZeroOnly(Some("0."))
    ensures !IsZeroOnly(Some("-0"))
    ensures IsZeroOnly(Some("000"))
    ensures IsZeroOnly(Some("0.00"))
  {
    assert Trim("0.") == "0.";
    assert RunLength("0.", Zero) == 1;
    assert Trim("-0") == "-0";
    assert Trim("000") == "000";
    assert Trim("0.00") == "0.00";
    assert RunLength("0.00", Zero) == 1;
    assert "0.00"[2..] == "00";
  }
}
