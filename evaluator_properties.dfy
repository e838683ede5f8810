/**
 * What the expression evaluator promises, stated over all inputs: number
 * tokens read back exactly, a chain of operators whose precedence never
 * rises is folded from left to right, a tighter operator after a looser one
 * is applied first, division by zero and malformed numbers are reported,
 * unbalanced parentheses are always rejected, and whitespace never matters.
 */
module EvaluatorProperties {
  import opened Wrappers
  import opened JavaText
  import opened Numerals
  import opened Errors
  import opened ExpressionEvaluator

  /** The stacks after pushing the operand `v`. */
  function PushNumber(st: Stacks, v: real): Stacks {
    Stacks(st.numbers + [v], st.operators)
  }

  /** Scanning the decimal text of `n` pushes exactly `n`, when the text is not glued to another number character. */
  lemma ScanNumber(n: nat, t: string, st: Stacks, fp: FloatOps)
    requires t == [] || !IsNumberChar(t[0])
    ensures Scan(NatText(n) + t, st, fp) == Scan(t, PushNumber(st, n as real), fp)
  {
    var text := NatText(n);
    var s := text + t;
    assert forall k :: 0 <= k < |text| ==> s[k] == text[k];
    assert |text| < |s| ==> s[|text|] == t[0];
    NumberRunIsMaximal(s, |text|);
    assert s[..|text|] == text;
    assert s[|text|..] == t;
    NatTextRoundTrip(n);
  }

  /** Scanning an operator character performs the reductions it causes and pushes it. */
  lemma ScanOperator(c: char, t: string, st: Stacks, fp: FloatOps)
    requires IsOperator(c)
    ensures PushOperator(st, c, fp).Failure? ==> Scan([c] + t, st, fp) == Failure(PushOperator(st, c, fp).error)
    ensures PushOperator(st, c, fp).Success? ==> Scan([c] + t, st, fp) == Scan(t, PushOperator(st, c, fp).value, fp)
  {
    assert ([c] + t)[0] == c;
    assert ([c] + t)[1..] == t;
  }

  /** The scan decides the rest of the evaluation. */
  lemma FinishFromScan(s: string, st: Stacks, t: string, st': Stacks, fp: FloatOps)
    requires Scan(s, st, fp) == Scan(t, st', fp)
    ensures Finish(s, st, fp) == Finish(t, st', fp)
  {
  }

  // ----- Operators whose precedence never rises: a left fold -----

  /** The text `op1 n1 op2 n2 ...` of a chain of operators and operands. */
  function Render(rest: seq<(char, nat)>): (s: string)
    ensures rest != [] ==> |s| >= 1 && s[0] == rest[0].0
  {
    if rest == [] then ""
    else [rest[0].0] + NatText(rest[0].1) + Render(rest[1..])
  }

  /** Every step of the chain is an operator, and none binds more tightly than any before it. */
  predicate NonRising(rest: seq<(char, nat)>) {
    && (forall i :: 0 <= i < |rest| ==> IsOperator(rest[i].0))
    && (forall i, j :: 0 <= i < j < |rest| && IsOperator(rest[i].0) && IsOperator(rest[j].0) ==>
                         Tier(rest[j].0) <= Tier(rest[i].0))
  }

  /** The reference reading of a chain: `((acc op1 n1) op2 n2) ...`, stopping at the first failing step. */
  function LeftFold(acc: real, rest: seq<(char, nat)>, fp: FloatOps): Result<real, Throwable>
    decreases |rest|
  {
    if rest == [] then Success(acc)
    else
      match ApplyOperation(rest[0].0, rest[0].1 as real, acc, fp)
      case Failure(e) => Failure(e)
      case Success(v) => LeftFold(v, rest[1..], fp)
  }

  lemma RenderStep(rest: seq<(char, nat)>)
    requires rest != []
    ensures Render(rest) == [rest[0].0] + (NatText(rest[0].1) + Render(rest[1..]))
  {
  }

  /** One reduction on stacks `xs + [a, b]` and `ops + [op]` computes `a op b` and leaves `xs + [a op b]` and `ops`. */
  lemma ReduceTop(xs: seq<real>, a: real, b: real, ops: seq<char>, op: char, fp: FloatOps)
    ensures ApplyOperation(op, b, a, fp).Failure? ==>
              Reduce(Stacks(xs + [a, b], ops + [op]), fp) == Failure(ApplyOperation(op, b, a, fp).error)
    ensures ApplyOperation(op, b, a, fp).Success? ==>
              Reduce(Stacks(xs + [a, b], ops + [op]), fp) == Success(Stacks(xs + [ApplyOperation(op, b, a, fp).value], ops))
  {
    var nums := xs + [a, b];
    assert nums[|nums| - 1] == b && nums[|nums| - 2] == a && nums[..|nums| - 2] == xs;
    assert (ops + [op])[|ops|] == op && (ops + [op])[..|ops|] == ops;
  }

  /** An operator pushed onto an empty operator stack causes no reduction. */
  lemma PushOntoEmpty(xs: seq<real>, c: char, fp: FloatOps)
    ensures PushOperator(Stacks(xs, []), c, fp) == Success(Stacks(xs, [c]))
  {
    assert [] + [c] == [c];
  }

  /** An operator followed by the text of a number: the operator's reductions, its push, then the number's push. */
  lemma ScanOperatorThenNumber(op: char, n: nat, t: string, st: Stacks, pushed: Stacks, fp: FloatOps)
    requires IsOperator(op)
    requires t == [] || !IsNumberChar(t[0])
    requires PushOperator(st, op, fp) == Success(pushed)
    ensures Scan([op] + (NatText(n) + t), st, fp) == Scan(t, PushNumber(pushed, n as real), fp)
  {
    ScanOperator(op, NatText(n) + t, st, fp);
    ScanNumber(n, t, pushed, fp);
  }

  /** The first step of a chain after `[acc, n]` and `[op]`: reduce, push the next operator, push the next number. */
  lemma ChainStep(acc: real, op: char, n: nat, op2: char, n2: nat, t: string, v: real, fp: FloatOps)
    requires IsOperator(op2) && HasPrecedence(op2, op)
    requires ApplyOperation(op, n as real, acc, fp) == Success(v)
    requires t == [] || !IsNumberChar(t[0])
    ensures Scan([op2] + (NatText(n2) + t), Stacks([acc, n as real], [op]), fp) ==
            Scan(t, Stacks([v, n2 as real], [op2]), fp)
  {
    var st := Stacks([acc, n as real], [op]);
    ChainPush(acc, op, n, op2, v, fp);
    ScanOperatorThenNumber(op2, n2, t, st, Stacks([v], [op2]), fp);
    assert PushNumber(Stacks([v], [op2]), n2 as real) == Stacks([v, n2 as real], [op2]);
  }

  /** The next operator folds the pending one and is then pushed alone. */
  lemma ChainPush(acc: real, op: char, n: nat, op2: char, v: real, fp: FloatOps)
    requires HasPrecedence(op2, op)
    requires ApplyOperation(op, n as real, acc, fp) == Success(v)
    ensures PushOperator(Stacks([acc, n as real], [op]), op2, fp) == Success(Stacks([v], [op2]))
  {
    var st := Stacks([acc, n as real], [op]);
    ReduceTop([], acc, n as real, [], op, fp);
    assert [] + [acc, n as real] == [acc, n as real] && [] + [op] == [op];
    assert Reduce(st, fp) == Success(Stacks([v], []));
    PushOntoEmpty([v], op2, fp);
    assert st.operators[|st.operators| - 1] == op;
  }

  /** A failing reduction at the next operator ends the scan with that failure. */
  lemma ChainStepFails(acc: real, op: char, n: nat, op2: char, t: string, fp: FloatOps)
    requires IsOperator(op2) && HasPrecedence(op2, op)
    requires ApplyOperation(op, n as real, acc, fp).Failure?
    ensures Scan([op2] + t, Stacks([acc, n as real], [op]), fp) == Failure(ApplyOperation(op, n as real, acc, fp).error)
  {
    var st := Stacks([acc, n as real], [op]);
    ReduceTop([], acc, n as real, [], op, fp);
    assert [] + [acc, n as real] == [acc, n as real] && [] + [op] == [op];
    ScanOperator(op2, t, st, fp);
  }

  /** Concluding with the operands `[a, b]` and the single operator `op` applies `op` to them. */
  lemma ConcludeOnePending(a: real, op: char, b: real, fp: FloatOps)
    ensures Conclude(Stacks([a, b], [op]), fp) == ApplyOperation(op, b, a, fp)
  {
    var st := Stacks([a, b], [op]);
    ReduceTop([], a, b, [], op, fp);
    assert [] + [a, b] == [a, b] && [] + [op] == [op];
    if ApplyOperation(op, b, a, fp).Success? {
      var v := ApplyOperation(op, b, a, fp).value;
      assert [] + [v] == [v];
      assert ReduceAll(st, fp) == ReduceAll(Stacks([v], []), fp);
    }
  }

  /** A chain of one step folds to that step. */
  lemma LeftFoldOne(acc: real, op: char, n: nat, fp: FloatOps)
    ensures LeftFold(acc, [(op, n)], fp) == ApplyOperation(op, n as real, acc, fp)
  {
    assert [(op, n)][0] == (op, n) && [(op, n)][1..] == [];
  }

  /** With nothing left to scan, `[acc, n]` and `[op]` conclude with `acc op n`. */
  lemma ChainEnd(acc: real, op: char, n: nat, fp: FloatOps)
    ensures Finish("", Stacks([acc, n as real], [op]), fp) == LeftFold(acc, [(op, n)], fp)
  {
    var st := Stacks([acc, n as real], [op]);
    assert Scan("", st, fp) == Success(st);
    ConcludeOnePending(acc, op, n as real, fp);
    LeftFoldOne(acc, op, n, fp);
  }

  /**
   * From the stacks `[acc, n]` and `[op]`, the rest of a non-rising chain
   * evaluates as the left fold: each new operator first reduces the one
   * below it, so the operator stack never holds more than one entry.
   */
  lemma {:induction false} FoldFrom(acc: real, op: char, n: nat, rest: seq<(char, nat)>, fp: FloatOps)
    requires NonRising([(op, n)] + rest)
    ensures Finish(Render(rest), Stacks([acc, n as real], [op]), fp) == LeftFold(acc, [(op, n)] + rest, fp)
    decreases |rest|
  {
    var whole := [(op, n)] + rest;
    assert whole[0] == (op, n) && whole[1..] == rest;
    if rest == [] {
      ChainEnd(acc, op, n, fp);
    } else {
      var op2, n2 := rest[0].0, rest[0].1;
      assert whole[1] == rest[0];
      assert IsOperator(op) && IsOperator(op2);
      assert HasPrecedence(op2, op);
      RenderStep(rest);
      var tail := Render(rest[1..]);
      if ApplyOperation(op, n as real, acc, fp).Failure? {
        ChainStepFails(acc, op, n, op2, NatText(n2) + tail, fp);
      } else {
        var v := ApplyOperation(op, n as real, acc, fp).value;
        ChainStep(acc, op, n, op2, n2, tail, v, fp);
        assert [(op2, n2)] + rest[1..] == rest;
        FoldFrom(v, op2, n2, rest[1..], fp);
        FinishFromScan(Render(rest), Stacks([acc, n as real], [op]), tail, Stacks([v, n2 as real], [op2]), fp);
      }
    }
  }

  /**
   * A chain of operators whose precedence never rises (`10-2-3`, `2^3^2`,
   * `8/4*2+1`) evaluates left to right: equal tiers associate to the left,
   * `^` included.
   */
  lemma ChainEvaluatesLeftToRight(first: nat, rest: seq<(char, nat)>, fp: FloatOps)
    requires NonRising(rest)
    ensures Evaluation(NatText(first) + Render(rest), fp) == LeftFold(first as real, rest, fp)
  {
    var empty := Stacks([], []);
    var r := Render(rest);
    var one := Stacks([first as real], []);
    ScanNumber(first, r, empty, fp);
    assert PushNumber(empty, first as real) == one;
    FinishFromScan(NatText(first) + r, empty, r, one, fp);
    if rest == [] {
      assert Finish(r, one, fp) == Success(first as real);
    } else {
      ChainFromFirst(first, rest, fp);
    }
  }

  /** The chain after its first operand: the first operator is pushed onto an empty stack, then the fold takes over. */
  lemma ChainFromFirst(first: nat, rest: seq<(char, nat)>, fp: FloatOps)
    requires rest != [] && NonRising(rest)
    ensures Finish(Render(rest), Stacks([first as real], []), fp) == LeftFold(first as real, rest, fp)
  {
    var op, n := rest[0].0, rest[0].1;
    var one := Stacks([first as real], []);
    RenderStep(rest);
    var tail := Render(rest[1..]);
    var two := Stacks([first as real], [op]);
    PushOntoEmpty([first as real], op, fp);
    ScanOperatorThenNumber(op, n, tail, one, two, fp);
    assert PushNumber(two, n as real) == Stacks([first as real, n as real], [op]);
    FinishFromScan(Render(rest), one, tail, Stacks([first as real, n as real], [op]), fp);
    assert [(op, n)] + rest[1..] == rest;
    FoldFrom(first as real, op, n, rest[1..], fp);
  }

  // ----- A tighter operator after a looser one -----

  /** In `a op1 b op2 c` with `op2` binding more tightly, `b op2 c` is computed first and `a op1` applied to it. */
  lemma TighterOperatorFirst(a: nat, op1: char, b: nat, op2: char, c: nat, fp: FloatOps)
    requires IsOperator(op1) && IsOperator(op2) && Tier(op1) < Tier(op2)
    ensures Evaluation(NatText(a) + [op1] + NatText(b) + [op2] + NatText(c), fp) ==
            match ApplyOperation(op2, c as real, b as real, fp)
            case Failure(e) => Failure(e)
            case Success(v) => ApplyOperation(op1, v, a as real, fp)
  {
    var s := NatText(a) + [op1] + NatText(b) + [op2] + NatText(c);
    var st := Stacks([a as real, b as real, c as real], [op1, op2]);
    ScanLooserThenTighter(a, op1, b, op2, c, fp);
    FinishFromScan(s, Stacks([], []), "", st, fp);
    ConcludeTwoPending(a as real, op1, b as real, op2, c as real, fp);
  }

  /** Scanning `a op1 b op2 c` with `op2` tighter leaves all three operands and both operators on the stacks. */
  lemma ScanLooserThenTighter(a: nat, op1: char, b: nat, op2: char, c: nat, fp: FloatOps)
    requires IsOperator(op1) && IsOperator(op2) && Tier(op1) < Tier(op2)
    ensures Scan(NatText(a) + [op1] + NatText(b) + [op2] + NatText(c), Stacks([], []), fp) ==
            Scan("", Stacks([a as real, b as real, c as real], [op1, op2]), fp)
  {
    var s2 := [op2] + (NatText(c) + "");
    assert NatText(a) + [op1] + NatText(b) + [op2] + NatText(c) == NatText(a) + ([op1] + (NatText(b) + s2));
    ScanFirstPair(a, op1, b, s2, fp);
    ScanTighterOperand(a as real, op1, b as real, op2, c, fp);
  }

  /** `a op1 b` at the start of the text pushes `a`, `op1` and `b`. */
  lemma ScanFirstPair(a: nat, op1: char, b: nat, t: string, fp: FloatOps)
    requires IsOperator(op1)
    requires t == [] || !IsNumberChar(t[0])
    ensures Scan(NatText(a) + ([op1] + (NatText(b) + t)), Stacks([], []), fp) ==
            Scan(t, Stacks([a as real, b as real], [op1]), fp)
  {
    var s0 := [op1] + (NatText(b) + t);
    assert s0[0] == op1;
    ScanNumber(a, s0, Stacks([], []), fp);
    FirstPairPushes(a, op1, b, fp);
    ScanOperatorThenNumber(op1, b, t, Stacks([a as real], []), Stacks([a as real], [op1]), fp);
  }

  /** The stack states of `a op1 b`: `a` pushed onto empty stacks, then `op1`, then `b`. */
  lemma FirstPairPushes(a: nat, op1: char, b: nat, fp: FloatOps)
    ensures PushNumber(Stacks([], []), a as real) == Stacks([a as real], [])
    ensures PushOperator(Stacks([a as real], []), op1, fp) == Success(Stacks([a as real], [op1]))
    ensures PushNumber(Stacks([a as real], [op1]), b as real) == Stacks([a as real, b as real], [op1])
  {
    PushOntoEmpty([a as real], op1, fp);
  }

  /** A tighter `op2 c` after `[a, b]` and `[op1]` is pushed without reducing. */
  lemma ScanTighterOperand(a: real, op1: char, b: real, op2: char, c: nat, fp: FloatOps)
    requires IsOperator(op1) && IsOperator(op2) && Tier(op1) < Tier(op2)
    ensures Scan([op2] + (NatText(c) + ""), Stacks([a, b], [op1]), fp) ==
            Scan("", Stacks([a, b, c as real], [op1, op2]), fp)
  {
    var st3 := Stacks([a, b], [op1]);
    assert !HasPrecedence(op2, op1);
    var st4 := Stacks([a, b], [op1, op2]);
    assert st3.operators[|st3.operators| - 1] == op1;
    assert [op1] + [op2] == [op1, op2];
    assert PushOperator(st3, op2, fp) == Success(st4);
    ScanOperatorThenNumber(op2, c, "", st3, st4, fp);
    assert PushNumber(st4, c as real) == Stacks([a, b, c as real], [op1, op2]);
  }

  /** Concluding with two pending operators applies the upper one first. */
  lemma ConcludeTwoPending(a: real, op1: char, b: real, op2: char, c: real, fp: FloatOps)
    ensures Finish("", Stacks([a, b, c], [op1, op2]), fp) ==
            match ApplyOperation(op2, c, b, fp)
            case Failure(e) => Failure(e)
            case Success(v) => ApplyOperation(op1, v, a, fp)
  {
    var st := Stacks([a, b, c], [op1, op2]);
    assert Scan("", st, fp) == Success(st);
    ReduceTop([a], b, c, [op1], op2, fp);
    assert [a] + [b, c] == [a, b, c] && [op1] + [op2] == [op1, op2];
    if ApplyOperation(op2, c, b, fp).Success? {
      var v := ApplyOperation(op2, c, b, fp).value;
      var mid := Stacks([a, v], [op1]);
      assert [a] + [v] == [a, v];
      assert Reduce(st, fp) == Success(mid);
      assert ReduceAll(st, fp) == ReduceAll(mid, fp);
      ReduceTop([], a, v, [], op1, fp);
      assert [] + [a, v] == [a, v] && [] + [op1] == [op1];
      if ApplyOperation(op1, v, a, fp).Success? {
        var w := ApplyOperation(op1, v, a, fp).value;
        assert [] + [w] == [w];
        assert Reduce(mid, fp) == Success(Stacks([w], []));
        assert ReduceAll(mid, fp) == ReduceAll(Stacks([w], []), fp);
        assert ReduceAll(Stacks([w], []), fp) == Success(Stacks([w], []));
      }
    }
  }

  // ----- Reported errors -----

  /** Dividing any number by zero raises DIVISION_BY_ZERO. */
  lemma DivisionByZeroReported(a: nat, fp: FloatOps)
    ensures Evaluation(NatText(a) + ['/'] + NatText(0), fp) ==
            Failure(Calculator(Create(DivisionByZero, "Cannot divide by zero")))
  {
    SingleStep(a, '/', 0, fp);
  }

  /** `%` is not checked for a zero divisor: it yields whatever the floating-point remainder gives. */
  lemma RemainderByZeroNotReported(a: nat, fp: FloatOps)
    ensures Evaluation(NatText(a) + ['%'] + NatText(0), fp) == Success(fp.rem(a as real, 0.0))
  {
    SingleStep(a, '%', 0, fp);
  }

  /** `a op b` evaluates as `ApplyOperation(op, b, a)`. */
  lemma SingleStep(a: nat, op: char, b: nat, fp: FloatOps)
    requires IsOperator(op)
    ensures Evaluation(NatText(a) + [op] + NatText(b), fp) == ApplyOperation(op, b as real, a as real, fp)
  {
    var rest := [(op, b)];
    RenderOne(NatText(a), op, b);
    ChainEvaluatesLeftToRight(a, rest, fp);
    LeftFoldOne(a as real, op, b, fp);
  }

  /** The text of a one-step chain after the first operand. */
  lemma RenderOne(x: string, op: char, b: nat)
    ensures x + [op] + NatText(b) == x + Render([(op, b)])
  {
    var rest := [(op, b)];
    assert rest[0] == (op, b) && rest[1..] == [];
    assert Render(rest) == [op] + NatText(b) + "";
  }

  /** A leading number token without a digit, or with two points, is rejected with the token itself. */
  lemma MalformedNumberReported(s: string, st: Stacks, fp: FloatOps)
    requires s != [] && IsNumberChar(s[0])
    requires var token := s[..NumberRunLength(s)];
             !HasDigit(token) || !AtMostOneDot(token)
    ensures Finish(s, st, fp) == Failure(NumberFormatException(s[..NumberRunLength(s)]))
  {
  }

  /**
   * A failure inside the evaluation, here DIVISION_BY_ZERO, reaches the
   * caller as EXPRESSION_PARSE_ERROR with the original exception as its cause.
   */
  lemma DivisionByZeroWrapped(a: nat, fp: FloatOps)
    ensures var text := NatText(a) + ['/'] + NatText(0);
            Outcome(Some(text), fp) ==
              Failure(CreateWithCause(ExpressionParseError, "Failed to parse expression: " + text,
                                      Calculator(Create(DivisionByZero, "Cannot divide by zero"))))
  {
    var text := NatText(a) + ['/'] + NatText(0);
    assert forall k :: 0 <= k < |text| ==> !IsWhitespace(text[k]) by {
      forall k | 0 <= k < |text| ensures !IsWhitespace(text[k]) {
        if k < |NatText(a)| {
          assert text[k] == NatText(a)[k];
        } else if k > |NatText(a)| {
          assert text[k] == NatText(0)[k - |NatText(a)| - 1];
        }
      }
    }
    StripWhitespaceFixes(text);
    UntrimmedText(text);
    DivisionByZeroReported(a, fp);
  }

  /** Text that starts with a digit is not blank. */
  lemma UntrimmedText(s: string)
    requires s != [] && IsDigit(s[0])
    ensures !IsBlank(s)
  {
    BlankIffAllTrimmable(s);
  }

  // ----- Skipped characters and leftover operands -----

  /** Characters other than number characters, parentheses and operators are skipped. */
  predicate IsIgnored(c: char) {
    !IsNumberChar(c) && c != '(' && c != ')' && !IsOperator(c)
  }

  lemma ScanIgnored(c: char, t: string, st: Stacks, fp: FloatOps)
    requires IsIgnored(c)
    ensures Scan([c] + t, st, fp) == Scan(t, st, fp)
  {
    assert ([c] + t)[1..] == t;
  }

  /** `(` is pushed onto the operator stack. */
  lemma ScanOpen(t: string, st: Stacks, fp: FloatOps)
    ensures Scan(['('] + t, st, fp) == Scan(t, Stacks(st.numbers, st.operators + ['(']), fp)
  {
    assert (['('] + t)[0] == '(' && (['('] + t)[1..] == t;
  }

  /**
   * `a x b` with an ignored character `x` leaves two operands and no
   * operator, and the result is the top one: "1x2" gives 2.
   */
  lemma IgnoredCharacterLeavesTopOperand(a: nat, c: char, b: nat, fp: FloatOps)
    requires IsIgnored(c)
    ensures Evaluation(NatText(a) + [c] + NatText(b), fp) == Success(b as real)
  {
    var t := [c] + (NatText(b) + "");
    Regroup(NatText(a), c, NatText(b));
    ScanIgnoredBetween(a, c, b, fp);
    var two := Stacks([a as real, b as real], []);
    assert Scan("", two, fp) == Success(two);
    FinishFromScan(NatText(a) + t, Stacks([], []), "", two, fp);
  }

  // A string identity kept in a lemma of its own so that the proofs using it stay fast; it models nothing.
  lemma Regroup(x: string, c: char, y: string)
    ensures x + [c] + y == x + ([c] + (y + ""))
  {
  }

  /** `a x b` with an ignored `x` pushes both operands and nothing else. */
  lemma ScanIgnoredBetween(a: nat, c: char, b: nat, fp: FloatOps)
    requires IsIgnored(c)
    ensures Scan(NatText(a) + ([c] + (NatText(b) + "")), Stacks([], []), fp) == Scan("", Stacks([a as real, b as real], []), fp)
  {
    var t := [c] + (NatText(b) + "");
    assert t[0] == c;
    ScanNumber(a, t, Stacks([], []), fp);
    var one := Stacks([a as real], []);
    assert PushNumber(Stacks([], []), a as real) == one;
    ScanIgnored(c, NatText(b) + "", one, fp);
    ScanNumber(b, "", one, fp);
    assert PushNumber(one, b as real) == Stacks([a as real, b as real], []);
  }

  /** `)` runs the closing step and scanning resumes after it. */
  lemma ScanClose(t: string, st: Stacks, fp: FloatOps)
    ensures CloseParen(st, fp).Failure? ==> Scan([')'] + t, st, fp) == Failure(CloseParen(st, fp).error)
    ensures CloseParen(st, fp).Success? ==> Scan([')'] + t, st, fp) == Scan(t, CloseParen(st, fp).value, fp)
  {
    assert ([')'] + t)[0] == ')' && ([')'] + t)[1..] == t;
  }

  /** `(b)` on top of the operands `xs`: `b` is pushed and the parenthesis is gone. */
  lemma ScanEnclosedOperand(xs: seq<real>, b: nat, fp: FloatOps)
    ensures Scan(['('] + (NatText(b) + [')']), Stacks(xs, []), fp) == Success(Stacks(xs + [b as real], []))
  {
    var t1 := [')'];
    var pending := Stacks(xs, ['(']);
    ScanOpen(NatText(b) + t1, Stacks(xs, []), fp);
    assert [] + ['('] == ['('];
    ScanNumber(b, t1, pending, fp);
    var two := Stacks(xs + [b as real], ['(']);
    assert PushNumber(pending, b as real) == two;
    assert CloseParen(two, fp) == Success(Stacks(xs + [b as real], []));
    ScanClose("", two, fp);
    assert t1 + "" == t1;
  }

  /** `(b)` after the operand `a`: both operands are pushed and the parenthesis is gone. */
  lemma ScanParenthesised(a: nat, b: nat, fp: FloatOps)
    ensures Scan(NatText(a) + (['('] + (NatText(b) + [')'])), Stacks([], []), fp) ==
            Success(Stacks([a as real, b as real], []))
  {
    var t0 := ['('] + (NatText(b) + [')']);
    assert t0[0] == '(';
    ScanNumber(a, t0, Stacks([], []), fp);
    assert PushNumber(Stacks([], []), a as real) == Stacks([a as real], []);
    ScanEnclosedOperand([a as real], b, fp);
    assert [a as real] + [b as real] == [a as real, b as real];
  }

  // A string identity kept in a lemma of its own so that the proofs using it stay fast; it models nothing.
  lemma Enclose(x: string, y: string)
    ensures x + "(" + y + ")" == x + (['('] + (y + [')']))
  {
  }

  /** `a(b)` pushes both operands; the parenthesis closes at once, and the result is `b`: "2(3)" gives 3. */
  lemma ParenthesisedOperandWins(a: nat, b: nat, fp: FloatOps)
    ensures Evaluation(NatText(a) + "(" + NatText(b) + ")", fp) == Success(b as real)
  {
    var s := NatText(a) + (['('] + (NatText(b) + [')']));
    Enclose(NatText(a), NatText(b));
    var closed := Stacks([a as real, b as real], []);
    ScanParenthesised(a, b, fp);
    assert Scan("", closed, fp) == Success(closed);
    FinishFromScan(s, Stacks([], []), "", closed, fp);
  }

  /**
   * A `(` still open at the end is popped as an operator: with two operands
   * below it the reduction reaches INVALID_OPERATION ("2(3"), with one it
   * underflows the operand stack ("(3").
   */
  lemma UnclosedParenthesisReported(a: nat, b: nat, fp: FloatOps)
    ensures Evaluation(NatText(a) + "(" + NatText(b), fp) ==
            Failure(Calculator(Create(InvalidOperation, "Invalid operator: (")))
    ensures Evaluation("(" + NatText(b), fp) == Failure(EmptyStackException)
  {
    UnclosedAfterOperand(a, b, fp);
    UnclosedAlone(b, fp);
  }

  lemma UnclosedAfterOperand(a: nat, b: nat, fp: FloatOps)
    ensures Evaluation(NatText(a) + "(" + NatText(b), fp) ==
            Failure(Calculator(Create(InvalidOperation, "Invalid operator: (")))
  {
    var t0 := ['('] + (NatText(b) + "");
    Regroup(NatText(a), '(', NatText(b));
    ScanOpenAfterOperand(a, b, fp);
    FinishFromScan(NatText(a) + t0, Stacks([], []), "", Stacks([a as real, b as real], ['(']), fp);
    OpenOnTopAtEnd(a as real, b as real, fp);
  }

  /** `a(b)` without its `)`: both operands pushed and the `(` left pending. */
  lemma ScanOpenAfterOperand(a: nat, b: nat, fp: FloatOps)
    ensures Scan(NatText(a) + (['('] + (NatText(b) + "")), Stacks([], []), fp) ==
            Scan("", Stacks([a as real, b as real], ['(']), fp)
  {
    var t0 := ['('] + (NatText(b) + "");
    assert t0[0] == '(';
    ScanNumber(a, t0, Stacks([], []), fp);
    var one := Stacks([a as real], []);
    assert PushNumber(Stacks([], []), a as real) == one;
    var pending := Stacks([a as real], ['(']);
    ScanOpen(NatText(b) + "", one, fp);
    assert [] + ['('] == ['('];
    ScanNumber(b, "", pending, fp);
    assert PushNumber(pending, b as real) == Stacks([a as real, b as real], ['(']);
  }

  /** Concluding with `(` on top of two operands applies `(` as an operator. */
  lemma OpenOnTopAtEnd(a: real, b: real, fp: FloatOps)
    ensures Finish("", Stacks([a, b], ['(']), fp) == Failure(Calculator(Create(InvalidOperation, "Invalid operator: (")))
  {
    var two := Stacks([a, b], ['(']);
    assert Scan("", two, fp) == Success(two);
    OpenApplied(a, b, fp);
    ReduceTop([], a, b, [], '(', fp);
    assert [] + [a, b] == [a, b] && [] + ['('] == ['('];
  }

  /** `(` applied as an operator is an invalid operator. */
  lemma OpenApplied(a: real, b: real, fp: FloatOps)
    ensures ApplyOperation('(', b, a, fp) == Failure(Calculator(Create(InvalidOperation, "Invalid operator: (")))
  {
    assert "Invalid operator: " + ['('] == "Invalid operator: (";
  }

  lemma UnclosedAlone(b: nat, fp: FloatOps)
    ensures Evaluation("(" + NatText(b), fp) == Failure(EmptyStackException)
  {
    var t0 := ['('] + (NatText(b) + "");
    assert "(" + NatText(b) == t0;
    var bare := Stacks([], ['(']);
    ScanOpen(NatText(b) + "", Stacks([], []), fp);
    assert [] + ['('] == ['('];
    ScanNumber(b, "", bare, fp);
    var lone := Stacks([b as real], ['(']);
    assert PushNumber(bare, b as real) == lone;
    assert Scan("", lone, fp) == Success(lone);
    FinishFromScan(t0, Stacks([], []), "", lone, fp);
  }

  /** A `)` with no `(` before it peeks at an empty operator stack: "2)" fails with EmptyStackException. */
  lemma UnmatchedCloseReported(a: nat, fp: FloatOps)
    ensures Evaluation(NatText(a) + ")", fp) == Failure(EmptyStackException)
  {
    var t := [')'];
    ScanNumber(a, t, Stacks([], []), fp);
    assert PushNumber(Stacks([], []), a as real) == Stacks([a as real], []);
  }

  // ----- Parentheses -----

  /** The number of `(` on the operator stack. */
  function Opens(ops: seq<char>): nat {
    if ops == [] then 0
    else Opens(ops[..|ops| - 1]) + (if ops[|ops| - 1] == '(' then 1 else 0)
  }

  /**
   * The parenthesis depth after reading `s` from depth `depth`, or None when
   * a `)` has no matching `(`; `Walk(s, 0) == Some(0)` says that `s` is
   * balanced.
   */
  function Walk(s: string, depth: nat): Option<nat> {
    if s == [] then Some(depth)
    else if s[0] == '(' then Walk(s[1..], depth + 1)
    else if s[0] == ')' then (if depth == 0 then None else Walk(s[1..], depth - 1))
    else Walk(s[1..], depth)
  }

  lemma OpensPush(ops: seq<char>, c: char)
    ensures Opens(ops + [c]) == Opens(ops) + (if c == '(' then 1 else 0)
  {
    assert (ops + [c])[..|ops|] == ops;
  }

  /** A reduction never removes a `(`: applying `(` as an operator fails. */
  lemma ReduceKeepsOpens(st: Stacks, fp: FloatOps)
    requires Reduce(st, fp).Success?
    ensures Opens(Reduce(st, fp).value.operators) == Opens(st.operators)
  {
    var m := |st.operators|;
    assert st.operators[m - 1] != '(';
  }

  lemma {:induction false} CloseParenLowersOpens(st: Stacks, fp: FloatOps)
    requires CloseParen(st, fp).Success?
    ensures Opens(st.operators) >= 1
    ensures Opens(CloseParen(st, fp).value.operators) == Opens(st.operators) - 1
    decreases |st.operators|
  {
    var m := |st.operators|;
    if st.operators[m - 1] != '(' {
      ReduceKeepsOpens(st, fp);
      CloseParenLowersOpens(Reduce(st, fp).value, fp);
    }
  }

  lemma {:induction false} PushOperatorKeepsOpens(st: Stacks, c: char, fp: FloatOps)
    requires IsOperator(c)
    requires PushOperator(st, c, fp).Success?
    ensures Opens(PushOperator(st, c, fp).value.operators) == Opens(st.operators)
    decreases |st.operators|
  {
    var m := |st.operators|;
    if m > 0 && HasPrecedence(c, st.operators[m - 1]) {
      ReduceKeepsOpens(st, fp);
      PushOperatorKeepsOpens(Reduce(st, fp).value, c, fp);
    } else {
      OpensPush(st.operators, c);
    }
  }

  lemma {:induction false} ReduceAllNeedsNoOpens(st: Stacks, fp: FloatOps)
    requires ReduceAll(st, fp).Success?
    ensures Opens(st.operators) == 0
    decreases |st.operators|
  {
    if |st.operators| > 0 {
      ReduceKeepsOpens(st, fp);
      ReduceAllNeedsNoOpens(Reduce(st, fp).value, fp);
    }
  }

  /** Skipping characters other than parentheses leaves the walk unchanged. */
  lemma {:induction false} WalkSkips(s: string, n: nat, depth: nat)
    requires n <= |s|
    requires forall k :: 0 <= k < n ==> s[k] != '(' && s[k] != ')'
    ensures Walk(s, depth) == Walk(s[n..], depth)
  {
    if n > 0 {
      WalkSkips(s[1..], n - 1, depth);
      assert s[1..][n - 1..] == s[n..];
    }
  }

  /** A successful scan moves the count of open parentheses exactly as the walk moves the depth. */
  lemma {:induction false} ScanTracksDepth(s: string, st: Stacks, fp: FloatOps)
    requires Scan(s, st, fp).Success?
    ensures Walk(s, Opens(st.operators)) == Some(Opens(Scan(s, st, fp).value.operators))
    decreases |s|
  {
    if s != [] {
      var c := s[0];
      var d := Opens(st.operators);
      if IsNumberChar(c) {
        var n := NumberRunLength(s);
        WalkSkips(s, n, d);
        ScanTracksDepth(s[n..], PushNumber(st, ParseDecimal(s[..n]).value), fp);
      } else if c == '(' {
        OpensPush(st.operators, '(');
        ScanTracksDepth(s[1..], Stacks(st.numbers, st.operators + ['(']), fp);
      } else if c == ')' {
        CloseParenLowersOpens(st, fp);
        ScanTracksDepth(s[1..], CloseParen(st, fp).value, fp);
      } else if IsOperator(c) {
        PushOperatorKeepsOpens(st, c, fp);
        ScanTracksDepth(s[1..], PushOperator(st, c, fp).value, fp);
      } else {
        ScanTracksDepth(s[1..], st, fp);
      }
    }
  }

  /**
   * Every expression the evaluator accepts has balanced parentheses: an
   * unmatched `)` or an unclosed `(` always ends in an exception.
   */
  lemma AcceptedIsBalanced(s: string, fp: FloatOps)
    requires Evaluation(s, fp).Success?
    ensures Walk(s, 0) == Some(0)
  {
    var empty := Stacks([], []);
    ScanTracksDepth(s, empty, fp);
    ReduceAllNeedsNoOpens(Scan(s, empty, fp).value, fp);
  }

  // ----- Whitespace -----

  /**
   * Two inputs that differ only in whitespace are treated alike: both or
   * neither are rejected as blank, both yield the same value, or both fail
   * with the same cause.
   */
  lemma WhitespaceIgnored(a: string, b: string, fp: FloatOps)
    requires StripWhitespace(a) == StripWhitespace(b)
    ensures IsBlank(a) <==> IsBlank(b)
    ensures Outcome(Some(a), fp).Success? <==> Outcome(Some(b), fp).Success?
    ensures Outcome(Some(a), fp).Success? ==> Outcome(Some(a), fp) == Outcome(Some(b), fp)
    ensures Outcome(Some(a), fp).Failure? ==>
              Outcome(Some(a), fp).error.errorType == Outcome(Some(b), fp).error.errorType &&
              Outcome(Some(a), fp).error.cause == Outcome(Some(b), fp).error.cause
  {
    BlanknessAgrees(a, b);
  }

  /** Blankness is decided by the characters that are not whitespace. */
  lemma BlanknessAgrees(a: string, b: string)
    requires StripWhitespace(a) == StripWhitespace(b)
    ensures IsBlank(a) <==> IsBlank(b)
  {
    StripWhitespaceKeepsBlankness(a);
    StripWhitespaceKeepsBlankness(b);
    BlankIffAllTrimmable(a);
    BlankIffAllTrimmable(b);
  }
}
