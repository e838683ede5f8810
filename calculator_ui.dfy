/**
 * The keypad of the calculator window: the text on the display, the pending
 * operator, the running value and the two flags `go` (an operand has been
 * entered since the last operator) and `addToDisplay` (keys extend the
 * display rather than replace it), driven by the digit, point, backspace,
 * clear, operator and equals handlers. Swing itself is not modelled; the
 * display is a string field and `formatResult` is a given function.
 */
module Keypad {
  import opened Wrappers
  import opened JavaText
  import opened Numerals
  import opened InputValidator
  import opened Errors
  import ExpressionEvaluator

  /**
   * `calculate(first, second, operator)`: `first operator second` for the
   * five arithmetic operators and `^`; a division by zero is caught and
   * gives 0 (the message it briefly shows is overwritten by the caller at
   * once); any other operator, such as the initial blank or `=`, gives
   * `second`.
   */
  function Calculate(first: real, second: real, op: char, fp: FloatOps): (r: real)
    ensures op == '+' ==> r == first + second
    ensures op == '-' ==> r == first - second
    ensures op == '*' ==> r == first * second
    ensures op == '/' ==> r == if second == 0.0 then 0.0 else first / second
    ensures op == '%' ==> r == fp.rem(first, second)
    ensures op == '^' ==> r == fp.pow(first, second)
    ensures !ExpressionEvaluator.IsOperator(op) ==> r == second
  {
    match op
    case '+' => first + second
    case '-' => first - second
    case '*' => first * second
    case '/' => if second == 0.0 then 0.0 else first / second
    case '%' => fp.rem(first, second)
    case '^' => fp.pow(first, second)
    case _ => second
  }

  /**
   * The keypad and the expression evaluator agree on every operator except
   * division by zero, where the evaluator raises DIVISION_BY_ZERO and the
   * keypad yields 0.
   */
  lemma CalculateAgreesWithEvaluator(first: real, second: real, op: char, fp: FloatOps)
    requires ExpressionEvaluator.IsOperator(op)
    ensures !(op == '/' && second == 0.0) ==>
              ExpressionEvaluator.ApplyOperation(op, second, first, fp) == Success(Calculate(first, second, op, fp))
    ensures op == '/' && second == 0.0 ==>
              Calculate(first, second, op, fp) == 0.0 &&
              ExpressionEvaluator.ApplyOperation(op, second, first, fp) ==
                Failure(Calculator(Create(DivisionByZero, "Cannot divide by zero")))
  {
  }

  /** A display being typed: a digit first, then digits and at most one point. */
  predicate IsEntry(s: string) {
    |s| >= 1 && IsDigit(s[0]) && IsNumberRun(s) && AtMostOneDot(s)
  }

  /** `formatResult` never yields empty text. */
  ghost predicate NeverEmpty(format: real -> string) {
    forall v :: |format(v)| >= 1
  }

  /**
   * A display being typed is a number the operator and equals keys accept
   * exactly when it does not end with a point, and it then reads as its
   * decimal value.
   */
  lemma {:induction false} EntryIsNumberUnlessTrailingPoint(s: string)
    requires IsEntry(s)
    ensures IsValidNumber(Some(s)) <==> s[|s| - 1] != '.'
    ensures s[|s| - 1] != '.' ==> ParseDecimal(s).Some? && ParseValidNumber(s) == ParseDecimal(s).value
  {
    UntrimmedEnds(s);
    assert DropMinus(s) == s;
    var n := RunLength(s, Digit);
    if n < |s| {
      assert s[n] == '.';
      forall k | n < k < |s| ensures IsDigit(s[k]) {
        assert s[k] != '.';
      }
      if s[|s| - 1] != '.' {
        assert n + 1 < |s|;
        var fraction := s[n + 1..];
        assert OneOrMore(fraction, Digit) by {
          forall k | 0 <= k < |fraction| ensures IsDigit(fraction[k]) {
            assert fraction[k] == s[n + 1 + k];
          }
        }
      }
    } else {
      assert IsDigit(s[|s| - 1]);
    }
    if s[|s| - 1] != '.' {
      assert HasDigit(s);
    }
  }

  /** A prefix of a display being typed, if not empty, is one too. */
  lemma EntryPrefix(s: string, n: nat)
    requires IsEntry(s) && 1 <= n <= |s|
    ensures IsEntry(s[..n])
  {
    var p := s[..n];
    assert p[0] == s[0];
    assert forall k :: 0 <= k < n ==> p[k] == s[k];
  }

  class CalculatorUI {
    var display: string
    var selectedOperator: char
    var go: bool
    var addToDisplay: bool
    var typedValue: real
    const fp: FloatOps
    const format: real -> string

    /**
     * The display is never empty; `go` is only cleared together with
     * `addToDisplay`; and while keys extend the display it holds a number
     * being typed.
     */
    ghost predicate Valid()
      reads this
    {
      && |display| >= 1
      && (!go ==> !addToDisplay)
      && (addToDisplay ==> IsEntry(display))
      && NeverEmpty(format)
    }

    /** The window as it opens: "0" on the display, no pending operator, a running value of 0. */
    constructor (fp: FloatOps, format: real -> string)
      requires NeverEmpty(format)
      ensures Valid()
      ensures display == "0" && selectedOperator == ' ' && go && addToDisplay && typedValue == 0.0
      ensures this.fp == fp && this.format == format
    {
      display := "0";
      selectedOperator := ' ';
      go := true;
      addToDisplay := true;
      typedValue := 0.0;
      this.fp := fp;
      this.format := format;
    }

    /**
     * `handleNumberButtonClick(digit)`: when extending, a display of zeros
     * is replaced by the digit and any other display gets the digit
     * appended; otherwise the display becomes the digit and extending is
     * switched on. Either way `go` is set.
     */
    method HandleNumberButtonClick(digit: char)
      requires Valid() && IsDigit(digit)
      modifies this
      ensures Valid()
      ensures old(addToDisplay) && IsZeroOnly(Some(old(display))) ==> display == [digit]
      ensures old(addToDisplay) && !IsZeroOnly(Some(old(display))) ==> display == old(display) + [digit]
      ensures !old(addToDisplay) ==> display == [digit]
      ensures go && addToDisplay
      ensures selectedOperator == old(selectedOperator) && typedValue == old(typedValue)
    {
      if addToDisplay {
        if IsZeroOnly(Some(display)) {
          display := [digit];
        } else {
          display := display + [digit];
        }
      } else {
        display := [digit];
        addToDisplay := true;
      }
      go := true;
    }

    /**
     * `handleOperator(op)`: ignored unless the display is a valid number.
     * With `go` set, the display is folded into the running value with the
     * pending operator, the result is shown, `op` becomes pending and both
     * flags are cleared; with `go` clear, `op` only replaces the pending
     * operator.
     */
    method HandleOperator(op: char)
      requires Valid()
      modifies this
      ensures Valid()
      ensures !IsValidNumber(Some(old(display))) ==>
                display == old(display) && selectedOperator == old(selectedOperator) && go == old(go) &&
                addToDisplay == old(addToDisplay) && typedValue == old(typedValue)
      ensures IsValidNumber(Some(old(display))) && old(go) ==>
                && typedValue == Calculate(old(typedValue), ParseValidNumber(old(display)), old(selectedOperator), fp)
                && display == format(typedValue)
                && selectedOperator == op && !go && !addToDisplay
      ensures IsValidNumber(Some(old(display))) && !old(go) ==>
                display == old(display) && selectedOperator == op && go == old(go) &&
                addToDisplay == old(addToDisplay) && typedValue == old(typedValue)
    {
      if !IsValidNumber(Some(display)) {
        return;
      }
      if go {
        var value := Calculate(typedValue, ParseValidNumber(display), selectedOperator, fp);
        var text := format(value);
        assert |text| >= 1;
        typedValue, display, selectedOperator, go, addToDisplay := value, text, op, false, false;
      } else {
        selectedOperator := op;
      }
    }

    /** The C key: "0" on the display, no pending operator, a running value of 0; the flags are left alone. */
    method Clear()
      requires Valid()
      modifies this
      ensures Valid()
      ensures display == "0" && selectedOperator == ' ' && typedValue == 0.0
      ensures go == old(go) && addToDisplay == old(addToDisplay)
    {
      display := "0";
      selectedOperator := ' ';
      typedValue := 0.0;
    }

    /**
     * The back key: the display loses its last character, copied out one
     * character at a time, and shows "0" when nothing would remain.
     */
    method Backspace()
      requires Valid()
      modifies this
      ensures Valid()
      ensures display == if |old(display)| == 1 then "0" else old(display)[..|old(display)| - 1]
      ensures selectedOperator == old(selectedOperator) && go == old(go) &&
              addToDisplay == old(addToDisplay) && typedValue == old(typedValue)
    {
      var str := display;
      var str2 := "";
      var i := 0;
      while i < |str| - 1
        invariant 0 <= i <= |str| - 1
        invariant str2 == str[..i]
      {
        str2 := str2 + [str[i]];
        i := i + 1;
      }
      if str2 == "" {
        display := "0";
      } else {
        if addToDisplay {
          EntryPrefix(str, |str| - 1);
        }
        display := str2;
      }
    }

    /**
     * The point key: when extending, a point is appended unless the display
     * already has one; otherwise the display becomes "0." and extending is
     * switched on. Either way `go` is set.
     */
    method Point()
      requires Valid()
      modifies this
      ensures Valid()
      ensures old(addToDisplay) ==> display == if '.' in old(display) then old(display) else old(display) + "."
      ensures !old(addToDisplay) ==> display == "0."
      ensures go && addToDisplay
      ensures selectedOperator == old(selectedOperator) && typedValue == old(typedValue)
    {
      if addToDisplay {
        if '.' !in display {
          display := display + ".";
        }
      } else {
        display := "0.";
        addToDisplay := true;
      }
      go := true;
    }

    /**
     * The equals key: only with a valid number on the display and `go` set,
     * the display is folded into the running value like an operator press,
     * the result is shown, `=` becomes pending and extending is switched
     * off; `go` stays set.
     */
    method Equals()
      requires Valid()
      modifies this
      ensures Valid()
      ensures IsValidNumber(Some(old(display))) && old(go) ==>
                && typedValue == Calculate(old(typedValue), ParseValidNumber(old(display)), old(selectedOperator), fp)
                && display == format(typedValue)
                && selectedOperator == '=' && go && !addToDisplay
      ensures !(IsValidNumber(Some(old(display))) && old(go)) ==>
                display == old(display) && selectedOperator == old(selectedOperator) && go == old(go) &&
                addToDisplay == old(addToDisplay) && typedValue == old(typedValue)
    {
      if !IsValidNumber(Some(display)) {
        return;
      }
      if go {
        var value := Calculate(typedValue, ParseValidNumber(display), selectedOperator, fp);
        var text := format(value);
        assert |text| >= 1;
        typedValue, display, selectedOperator, addToDisplay := value, text, '=', false;
      }
    }
  }
}
