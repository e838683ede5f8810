/**
 * The infix expression evaluator: a two-stack operator-precedence evaluator
 * that reduces while it scans. The specification functions below describe
 * one step of the scan each; `Evaluate` is the loop itself, with the same
 * stacks, index arithmetic and pop order as the original, and is proved to
 * compute `Evaluation`.
 *
 * Stacks are sequences whose top is the last element.
 */
module ExpressionEvaluator {
  import opened Wrappers
  import opened JavaText
  import opened Numerals
  import opened Errors

  /** `isOperator`: the six binary operators. */
  predicate IsOperator(c: char) {
    c == '+' || c == '-' || c == '*' || c == '/' || c == '%' || c == '^'
  }

  /** How tightly an operator binds: `+ -` below `* / %` below `^`. */
  function Tier(op: char): (t: nat)
    requires IsOperator(op)
    ensures t == 1 <==> op == '+' || op == '-'
    ensures t == 2 <==> op == '*' || op == '/' || op == '%'
    ensures t == 3 <==> op == '^'
  {
    if op == '+' || op == '-' then 1
    else if op == '^' then 3
    else 2
  }

  /**
   * `hasPrecedence(op1, op2)`: whether the operator `op2` on top of the stack
   * is applied before `op1` is pushed. Never for a parenthesis; for two
   * operators, exactly when `op2` binds at least as tightly as `op1`, so
   * operators of equal tier, `^` included, associate to the left.
   */
  function HasPrecedence(op1: char, op2: char): (r: bool)
    ensures op2 == '(' || op2 == ')' ==> !r
    ensures IsOperator(op1) && IsOperator(op2) ==> (r <==> Tier(op2) >= Tier(op1))
  {
    if op2 == '(' || op2 == ')' then false
    else if (op1 == '*' || op1 == '/' || op1 == '%') && (op2 == '+' || op2 == '-') then false
    else if op1 == '^' && (op2 == '+' || op2 == '-' || op2 == '*' || op2 == '/' || op2 == '%') then false
    else true
  }

  /**
   * `applyOperation(op, b, a)`: `a op b`, with `b` the operand popped first.
   * Division by zero and any non-operator (the only one that reaches here is
   * a stray `(`) throw calculator exceptions; `%` has no zero check.
   */
  function ApplyOperation(op: char, b: real, a: real, fp: FloatOps): (r: Result<real, Throwable>)
    ensures r.Failure? <==> !IsOperator(op) || (op == '/' && b == 0.0)
    ensures op == '/' && b == 0.0 ==>
              r == Failure(Calculator(Create(DivisionByZero, "Cannot divide by zero")))
    ensures !IsOperator(op) ==>
              r == Failure(Calculator(Create(InvalidOperation, "Invalid operator: " + [op])))
    ensures op == '+' ==> r == Success(a + b)
    ensures op == '-' ==> r == Success(a - b)
    ensures op == '*' ==> r == Success(a * b)
    ensures op == '/' && b != 0.0 ==> r == Success(a / b)
  {
    match op
    case '+' => Success(a + b)
    case '-' => Success(a - b)
    case '*' => Success(a * b)
    case '/' =>
      if b == 0.0 then Failure(Calculator(Create(DivisionByZero, "Cannot divide by zero")))
      else Success(a / b)
    case '%' => Success(fp.rem(a, b))
    case '^' => Success(fp.pow(a, b))
    case _ => Failure(Calculator(Create(InvalidOperation, "Invalid operator: " + [op])))
  }

  /** The operand stack and the operator stack, tops last. */
  datatype Stacks = Stacks(numbers: seq<real>, operators: seq<char>)

  /**
   * One reduction, `numbers.push(applyOperation(operators.pop(),
   * numbers.pop(), numbers.pop()))`: pops the operator, then the right
   * operand, then the left one, and pushes the result. A pop from an empty
   * stack throws `EmptyStackException`.
   */
  function Reduce(st: Stacks, fp: FloatOps): (r: Result<Stacks, Throwable>)
    ensures |st.operators| == 0 || |st.numbers| < 2 ==> r == Failure(EmptyStackException)
    ensures r.Success? ==>
              && |st.operators| >= 1 && |st.numbers| >= 2
              && r.value.operators == st.operators[..|st.operators| - 1]
              && |r.value.numbers| == |st.numbers| - 1
              && r.value.numbers[..|r.value.numbers| - 1] == st.numbers[..|st.numbers| - 2]
  {
    if |st.operators| == 0 || |st.numbers| < 2 then Failure(EmptyStackException)
    else
      var n, m := |st.numbers|, |st.operators|;
      match ApplyOperation(st.operators[m - 1], st.numbers[n - 1], st.numbers[n - 2], fp)
      case Failure(e) => Failure(e)
      case Success(v) => Success(Stacks(st.numbers[..n - 2] + [v], st.operators[..m - 1]))
  }

  /**
   * The `)` case: reduce until a `(` is on top, then pop it. Peeking at an
   * empty operator stack throws `EmptyStackException`.
   */
  function CloseParen(st: Stacks, fp: FloatOps): (r: Result<Stacks, Throwable>)
    ensures '(' !in st.operators ==> r.Failure?
    ensures r.Success? ==>
              && |r.value.operators| < |st.operators|
              && r.value.operators == st.operators[..|r.value.operators|]
              && st.operators[|r.value.operators|] == '('
              && '(' !in st.operators[|r.value.operators| + 1..]
    decreases |st.operators|
  {
    var m := |st.operators|;
    if m == 0 then Failure(EmptyStackException)
    else if st.operators[m - 1] == '(' then Success(Stacks(st.numbers, st.operators[..m - 1]))
    else
      match Reduce(st, fp)
      case Failure(e) => Failure(e)
      case Success(st') => CloseParen(st', fp)
  }

  /** The operator case: reduce while the top has precedence over `c`, then push `c`. */
  function PushOperator(st: Stacks, c: char, fp: FloatOps): Result<Stacks, Throwable>
    decreases |st.operators|
  {
    var m := |st.operators|;
    if m > 0 && HasPrecedence(c, st.operators[m - 1]) then
      match Reduce(st, fp)
      case Failure(e) => Failure(e)
      case Success(st') => PushOperator(st', c, fp)
    else Success(Stacks(st.numbers, st.operators + [c]))
  }

  /**
   * The operator case ends with `c` on top of a prefix of the old operator
   * stack, and pushes `c` at once when the stack is empty or its top does
   * not have precedence.
   */
  lemma {:induction false} PushOperatorPushes(st: Stacks, c: char, fp: FloatOps)
    ensures var r := PushOperator(st, c, fp);
            r.Success? ==>
              && 1 <= |r.value.operators| <= |st.operators| + 1
              && r.value.operators[|r.value.operators| - 1] == c
              && r.value.operators[..|r.value.operators| - 1] == st.operators[..|r.value.operators| - 1]
    ensures |st.operators| == 0 || !HasPrecedence(c, st.operators[|st.operators| - 1]) ==>
              PushOperator(st, c, fp) == Success(Stacks(st.numbers, st.operators + [c]))
    decreases |st.operators|
  {
    var m := |st.operators|;
    if m > 0 && HasPrecedence(c, st.operators[m - 1]) {
      var red := Reduce(st, fp);
      if red.Success? {
        PushOperatorPushes(red.value, c, fp);
      }
    }
  }

  /** The end of the scan: reduce until the operator stack is empty. */
  function ReduceAll(st: Stacks, fp: FloatOps): (r: Result<Stacks, Throwable>)
    ensures r.Success? ==> r.value.operators == []
    decreases |st.operators|
  {
    if |st.operators| == 0 then Success(st)
    else
      match Reduce(st, fp)
      case Failure(e) => Failure(e)
      case Success(st') => ReduceAll(st', fp)
  }

  /** The length of the run of digits and points at the start of `s`. */
  function NumberRunLength(s: string): (n: nat)
    ensures n <= |s|
    ensures forall k :: 0 <= k < n ==> IsNumberChar(s[k])
    ensures n < |s| ==> !IsNumberChar(s[n])
  {
    if s == [] || !IsNumberChar(s[0]) then 0 else 1 + NumberRunLength(s[1..])
  }

  /**
   * The scan of the remaining text `s` from the stacks `st`: a number token
   * (the longest run of digits and points) is parsed and pushed, `(` is
   * pushed, `)` closes a parenthesis, an operator is pushed after the
   * reductions it causes, and every other character is skipped.
   */
  function Scan(s: string, st: Stacks, fp: FloatOps): Result<Stacks, Throwable>
    decreases |s|
  {
    if s == [] then Success(st)
    else
      var c := s[0];
      if IsNumberChar(c) then
        var n := NumberRunLength(s);
        match ParseDecimal(s[..n])
        case None => Failure(NumberFormatException(s[..n]))
        case Some(v) => Scan(s[n..], Stacks(st.numbers + [v], st.operators), fp)
      else if c == '(' then
        Scan(s[1..], Stacks(st.numbers, st.operators + ['(']), fp)
      else if c == ')' then
        match CloseParen(st, fp)
        case Failure(e) => Failure(e)
        case Success(st') => Scan(s[1..], st', fp)
      else if IsOperator(c) then
        match PushOperator(st, c, fp)
        case Failure(e) => Failure(e)
        case Success(st') => Scan(s[1..], st', fp)
      else
        Scan(s[1..], st, fp)
  }

  /** After the scan: reduce everything and pop the top operand, whatever lies below it. */
  function Conclude(st: Stacks, fp: FloatOps): Result<real, Throwable> {
    match ReduceAll(st, fp)
    case Failure(e) => Failure(e)
    case Success(st') =>
      if |st'.numbers| == 0 then Failure(EmptyStackException)
      else Success(st'.numbers[|st'.numbers| - 1])
  }

  /** The rest of an evaluation from the stacks `st` with the text `s` still to scan. */
  function Finish(s: string, st: Stacks, fp: FloatOps): Result<real, Throwable> {
    match Scan(s, st, fp)
    case Failure(e) => Failure(e)
    case Success(st') => Conclude(st', fp)
  }

  /** What `evaluate` returns or throws for the (whitespace-free) text `s`. */
  function Evaluation(s: string, fp: FloatOps): Result<real, Throwable> {
    Finish(s, Stacks([], []), fp)
  }

  /**
   * The pops of one reduction, in the order the original performs them:
   * operator, right operand, left operand.
   */
  method PopAndApply(numbers: seq<real>, operators: seq<char>, fp: FloatOps) returns (r: Result<Stacks, Throwable>)
    ensures r == Reduce(Stacks(numbers, operators), fp)
  {
    var ops, nums := operators, numbers;
    if |ops| == 0 {
      return Failure(EmptyStackException);
    }
    var op := ops[|ops| - 1];
    ops := ops[..|ops| - 1];
    if |nums| == 0 {
      return Failure(EmptyStackException);
    }
    var b := nums[|nums| - 1];
    nums := nums[..|nums| - 1];
    if |nums| == 0 {
      return Failure(EmptyStackException);
    }
    var a := nums[|nums| - 1];
    nums := nums[..|nums| - 1];
    var result := ApplyOperation(op, b, a, fp);
    if result.Failure? {
      return Failure(result.error);
    }
    assert nums == numbers[..|numbers| - 2];
    return Success(Stacks(nums + [result.value], ops));
  }

  /** A run of number characters that ends at the end of `s` or before another character has length `NumberRunLength`. */
  lemma NumberRunIsMaximal(s: string, n: nat)
    requires n <= |s|
    requires forall k :: 0 <= k < n ==> IsNumberChar(s[k])
    requires n < |s| ==> !IsNumberChar(s[n])
    ensures NumberRunLength(s) == n
  {
  }

  /** The index just past the run of digits and points that starts at `start`. */
  method SkipNumberRun(expression: string, start: nat) returns (i: nat)
    requires start <= |expression|
    ensures i == start + NumberRunLength(expression[start..])
  {
    i := start;
    while i < |expression| && IsNumberChar(expression[i])
      invariant start <= i <= |expression|
      invariant forall k :: start <= k < i ==> IsNumberChar(expression[k])
    {
      i := i + 1;
    }
    NumberRunIsMaximal(expression[start..], i - start);
  }

  /** The `)` case of the loop: pop and apply until `(` is on top, then pop it. */
  method PopToOpenParen(numbers: seq<real>, operators: seq<char>, fp: FloatOps) returns (r: Result<Stacks, Throwable>)
    ensures r == CloseParen(Stacks(numbers, operators), fp)
  {
    var nums, ops := numbers, operators;
    while |ops| == 0 || ops[|ops| - 1] != '('
      invariant CloseParen(Stacks(nums, ops), fp) == CloseParen(Stacks(numbers, operators), fp)
      decreases |ops|
    {
      if |ops| == 0 {
        return Failure(EmptyStackException);
      }
      var reduced := PopAndApply(nums, ops, fp);
      if reduced.Failure? {
        return Failure(reduced.error);
      }
      nums, ops := reduced.value.numbers, reduced.value.operators;
    }
    ops := ops[..|ops| - 1]; // remove '('
    return Success(Stacks(nums, ops));
  }

  /** The operator case of the loop: pop and apply while the top has precedence over `c`, then push `c`. */
  method PushAfterReducing(numbers: seq<real>, operators: seq<char>, c: char, fp: FloatOps) returns (r: Result<Stacks, Throwable>)
    ensures r == PushOperator(Stacks(numbers, operators), c, fp)
  {
    var nums, ops := numbers, operators;
    while |ops| > 0 && HasPrecedence(c, ops[|ops| - 1])
      invariant PushOperator(Stacks(nums, ops), c, fp) == PushOperator(Stacks(numbers, operators), c, fp)
      decreases |ops|
    {
      var reduced := PopAndApply(nums, ops, fp);
      if reduced.Failure? {
        return Failure(reduced.error);
      }
      nums, ops := reduced.value.numbers, reduced.value.operators;
    }
    return Success(Stacks(nums, ops + [c]));
  }

  /** The loop after the scan: pop and apply while operators remain. */
  method PopAll(numbers: seq<real>, operators: seq<char>, fp: FloatOps) returns (r: Result<Stacks, Throwable>)
    ensures r == ReduceAll(Stacks(numbers, operators), fp)
  {
    var nums, ops := numbers, operators;
    while |ops| > 0
      invariant ReduceAll(Stacks(nums, ops), fp) == ReduceAll(Stacks(numbers, operators), fp)
      decreases |ops|
    {
      var reduced := PopAndApply(nums, ops, fp);
      if reduced.Failure? {
        return Failure(reduced.error);
      }
      nums, ops := reduced.value.numbers, reduced.value.operators;
    }
    return Success(Stacks(nums, ops));
  }

  /** One number token of the scan, from `i` to `j`: its text is parsed and pushed, or the parse error ends the evaluation. */
  lemma FinishNumberStep(s: string, i: nat, j: nat, st: Stacks, fp: FloatOps)
    requires i < |s| && IsNumberChar(s[i])
    requires j == i + NumberRunLength(s[i..])
    ensures j <= |s|
    ensures ParseDecimal(s[i..j]).None? ==> Finish(s[i..], st, fp) == Failure(NumberFormatException(s[i..j]))
    ensures ParseDecimal(s[i..j]).Some? ==>
              Finish(s[i..], st, fp) == Finish(s[j..], Stacks(st.numbers + [ParseDecimal(s[i..j]).value], st.operators), fp)
  {
    var rest := s[i..];
    assert rest[..j - i] == s[i..j];
    assert rest[j - i..] == s[j..];
  }

  /** One character of the scan, at `i`, that does not start a number. */
  lemma FinishCharStep(s: string, i: nat, st: Stacks, fp: FloatOps)
    requires i < |s| && !IsNumberChar(s[i])
    ensures s[i] == '(' ==> Finish(s[i..], st, fp) == Finish(s[i + 1..], Stacks(st.numbers, st.operators + ['(']), fp)
    ensures s[i] == ')' ==>
              Finish(s[i..], st, fp) ==
              if CloseParen(st, fp).Failure? then Failure(CloseParen(st, fp).error)
              else Finish(s[i + 1..], CloseParen(st, fp).value, fp)
    ensures s[i] != '(' && s[i] != ')' && IsOperator(s[i]) ==>
              Finish(s[i..], st, fp) ==
              if PushOperator(st, s[i], fp).Failure? then Failure(PushOperator(st, s[i], fp).error)
              else Finish(s[i + 1..], PushOperator(st, s[i], fp).value, fp)
    ensures s[i] != '(' && s[i] != ')' && !IsOperator(s[i]) ==> Finish(s[i..], st, fp) == Finish(s[i + 1..], st, fp)
  {
    assert s[i..][1..] == s[i + 1..];
  }

  /** With the whole text scanned, what is left is the final reduction. */
  lemma FinishAtEnd(s: string, i: nat, st: Stacks, fp: FloatOps)
    requires i == |s|
    ensures Finish(s[i..], st, fp) == Conclude(st, fp)
  {
    assert s[i..] == [];
  }

  /**
   * `evaluate`: the scanning loop over the two stacks. The index is advanced
   * through a number token, backed up by one, and advanced again by the loop,
   * as in the original.
   */
  method Evaluate(expression: string, fp: FloatOps) returns (r: Result<real, Throwable>)
    ensures r == Evaluation(expression, fp)
  {
    var numbers: seq<real> := [];
    var operators: seq<char> := [];
    var i := 0;
    while i < |expression|
      invariant 0 <= i <= |expression|
      invariant Finish(expression[i..], Stacks(numbers, operators), fp) == Evaluation(expression, fp)
    {
      var c := expression[i];
      ghost var st := Stacks(numbers, operators);
      if IsNumberChar(c) {
        var start := i;
        i := SkipNumberRun(expression, start);
        var token := expression[start..i];
        FinishNumberStep(expression, start, i, st, fp);
        i := i - 1; // back up one
        var value := ParseDecimal(token);
        if value.None? {
          return Failure(NumberFormatException(token));
        }
        numbers := numbers + [value.value];
      } else {
        FinishCharStep(expression, i, st, fp);
        if c == '(' {
          operators := operators + [c];
        } else if c == ')' {
          var closed := PopToOpenParen(numbers, operators, fp);
          if closed.Failure? {
            return Failure(closed.error);
          }
          numbers, operators := closed.value.numbers, closed.value.operators;
        } else if IsOperator(c) {
          var pushed := PushAfterReducing(numbers, operators, c, fp);
          if pushed.Failure? {
            return Failure(pushed.error);
          }
          numbers, operators := pushed.value.numbers, pushed.value.operators;
        }
      }
      i := i + 1;
    }
    FinishAtEnd(expression, i, Stacks(numbers, operators), fp);
    var reduced := PopAll(numbers, operators, fp);
    if reduced.Failure? {
      return Failure(reduced.error);
    }
    numbers := reduced.value.numbers;
    if |numbers| == 0 {
      return Failure(EmptyStackException);
    }
    return Success(numbers[|numbers| - 1]);
  }

  /**
   * What `evaluateExpression` returns or throws: null or blank input is an
   * INVALID_INPUT exception; otherwise the whitespace-free text is
   * evaluated, and anything thrown becomes the cause of an
   * EXPRESSION_PARSE_ERROR exception.
   */
  function Outcome(expression: Option<string>, fp: FloatOps): (r: Result<real, CalculatorException>)
    ensures (r.Failure? && r.error.errorType == InvalidInput) <==> expression.None? || IsBlank(expression.value)
    ensures r.Failure? ==> r.error.errorType == InvalidInput || r.error.errorType == ExpressionParseError
    ensures r.Failure? && r.error.errorType == ExpressionParseError ==>
              r.error.cause.Some? && Evaluation(StripWhitespace(expression.value), fp) == Failure(r.error.cause.value)
    ensures r.Success? ==> expression.Some? && Evaluation(StripWhitespace(expression.value), fp) == Success(r.value)
  {
    if expression.None? || IsBlank(expression.value) then
      Failure(Create(InvalidInput, "Expression cannot be empty"))
    else
      match Evaluation(StripWhitespace(expression.value), fp)
      case Success(v) => Success(v)
      case Failure(e) => Failure(CreateWithCause(ExpressionParseError, "Failed to parse expression: " + expression.value, e))
  }

  /** `evaluateExpression`: the null and blank check, then `evaluate` on the text with all whitespace removed. */
  method EvaluateExpression(expression: Option<string>, fp: FloatOps) returns (r: Result<real, CalculatorException>)
    ensures r == Outcome(expression, fp)
  {
    if expression.None? || IsBlank(expression.value) {
      return Failure(Create(InvalidInput, "Expression cannot be empty"));
    }
    var result := Evaluate(StripWhitespace(expression.value), fp);
    if result.Failure? {
      return Failure(CreateWithCause(ExpressionParseError, "Failed to parse expression: " + expression.value, result.error));
    }
    return Success(result.value);
  }
}
