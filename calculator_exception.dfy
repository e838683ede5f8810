/**
 * The calculator's checked exception: one of six error kinds, a message, and
 * possibly the exception that caused it. The localized message is looked up
 * in the settings under a key derived from the kind's name.
 */
module Errors {
  import opened Wrappers
  import opened JavaText
  import Configuration

  /** The six error kinds, in declaration order. */
  datatype ErrorType =
    | DivisionByZero
    | InvalidInput
    | Overflow
    | Underflow
    | InvalidOperation
    | ExpressionParseError

  /**
   * The exceptions that reach the evaluator's outer handler: the stack
   * underflow of `java.util.Stack`, the parse failure of `Double.parseDouble`
   * (with the text it rejected), or a calculator exception.
   */
  datatype Throwable =
    | EmptyStackException
    | NumberFormatException(input: string)
    | Calculator(exception: CalculatorException)

  datatype CalculatorException = CalculatorException(errorType: ErrorType, message: string, cause: Option<Throwable>)

  /** `ErrorType.name()`: the constant's name as declared. */
  function Name(t: ErrorType): string {
    match t
    case DivisionByZero => "DIVISION_BY_ZERO"
    case InvalidInput => "INVALID_INPUT"
    case Overflow => "OVERFLOW"
    case Underflow => "UNDERFLOW"
    case InvalidOperation => "INVALID_OPERATION"
    case ExpressionParseError => "EXPRESSION_PARSE_ERROR"
  }

  /** Every error kind, once each. */
  const AllErrorTypes: seq<ErrorType> :=
    [DivisionByZero, InvalidInput, Overflow, Underflow, InvalidOperation, ExpressionParseError]

  /** There are exactly six error kinds, and their names tell them apart. */
  lemma SixErrorTypes()
    ensures forall t: ErrorType :: t in AllErrorTypes
    ensures |AllErrorTypes| == 6
    ensures forall i, j :: 0 <= i < j < |AllErrorTypes| ==> Name(AllErrorTypes[i]) != Name(AllErrorTypes[j])
  {
    forall t: ErrorType ensures t in AllErrorTypes {
      match t
      case DivisionByZero => assert AllErrorTypes[0] == t;
      case InvalidInput => assert AllErrorTypes[1] == t;
      case Overflow => assert AllErrorTypes[2] == t;
      case Underflow => assert AllErrorTypes[3] == t;
      case InvalidOperation => assert AllErrorTypes[4] == t;
      case ExpressionParseError => assert AllErrorTypes[5] == t;
    }
  }

  /** `new CalculatorException(errorType, message)`: no cause. */
  function Create(errorType: ErrorType, message: string): (e: CalculatorException)
    ensures e.errorType == errorType && e.message == message && e.cause.None?
  {
    CalculatorException(errorType, message, None)
  }

  /** `new CalculatorException(errorType, message, cause)`. */
  function CreateWithCause(errorType: ErrorType, message: string, cause: Throwable): (e: CalculatorException)
    ensures e.errorType == errorType && e.message == message && e.cause == Some(cause)
  {
    CalculatorException(errorType, message, Some(cause))
  }

  /** The last part of the message key: the kind's name in lower case with every underscore removed. */
  function KeySegment(t: ErrorType): (segment: string)
    ensures '_' !in segment
  {
    RemoveAll(ToLowerAscii(Name(t)), '_')
  }

  /** The key segment is never empty and holds no underscore and no upper-case letter. */
  lemma KeySegmentFormat(t: ErrorType)
    ensures |KeySegment(t)| >= 1
    ensures forall k :: 0 <= k < |KeySegment(t)| ==> KeySegment(t)[k] != '_' && !IsUpper(KeySegment(t)[k])
  {
    var lower := ToLowerAscii(Name(t));
    var segment := RemoveAll(lower, '_');
    RemoveAllKeeps(lower, '_');
    assert forall k :: 0 <= k < |segment| ==> segment[k] in lower;
    assert lower[0] != '_';
  }

  /** The settings path of the localized message: "errors." followed by the key segment. */
  function MessageKey(t: ErrorType): string {
    "errors." + KeySegment(t)
  }

  /** Removing the underscores from two pieces joined by one. */
  lemma StripAroundUnderscore(lower: string, a: string, b: string)
    requires lower == a + "_" + b
    ensures RemoveAll(lower, '_') == RemoveAll(a, '_') + RemoveAll(b, '_')
  {
    var u: string := "_";
    assert RemoveAll(u, '_') == [];
    RemoveAllAppend(a + u, b, '_');
    RemoveAllAppend(a, u, '_');
  }

  /** Removing the underscores from two underscore-free words joined by one. */
  lemma StripTwoWords(lower: string, a: string, b: string)
    requires lower == a + "_" + b
    requires '_' !in a && '_' !in b
    ensures RemoveAll(lower, '_') == a + b
  {
    StripAroundUnderscore(lower, a, b);
  }

  /** Removing the underscores from three underscore-free words joined by them. */
  lemma StripThreeWords(lower: string, a: string, b: string, c: string)
    requires lower == a + "_" + b + "_" + c
    requires '_' !in a && '_' !in b && '_' !in c
    ensures RemoveAll(lower, '_') == a + b + c
  {
    StripAroundUnderscore(lower, a + "_" + b, c);
    StripTwoWords(a + "_" + b, a, b);
  }

  lemma OneWordKey(t: ErrorType, segment: string)
    requires ToLowerAscii(Name(t)) == segment && '_' !in segment
    ensures KeySegment(t) == segment
  {
  }

  lemma TwoWordKey(t: ErrorType, a: string, b: string, segment: string)
    requires ToLowerAscii(Name(t)) == a + "_" + b
    requires '_' !in a && '_' !in b && a + b == segment
    ensures KeySegment(t) == segment
  {
    StripTwoWords(ToLowerAscii(Name(t)), a, b);
  }

  lemma ThreeWordKey(t: ErrorType, a: string, b: string, c: string, segment: string)
    requires ToLowerAscii(Name(t)) == a + "_" + b + "_" + c
    requires '_' !in a && '_' !in b && '_' !in c && a + b + c == segment
    ensures KeySegment(t) == segment
  {
    StripThreeWords(ToLowerAscii(Name(t)), a, b, c);
  }

  // One lemma per kind: each computes a single key segment. The kind is a
  // parameter so that the verifier does not evaluate every name at once.

  lemma DivisionByZeroSegment(t: ErrorType)
    ensures t == DivisionByZero ==> KeySegment(t) == "divisionbyzero"
  {
    if t == DivisionByZero {
      assert ToLowerAscii(Name(t)) == "division" + "_" + "by" + "_" + "zero";
      ThreeWordKey(t, "division", "by", "zero", "divisionbyzero");
    }
  }

  lemma InvalidInputSegment(t: ErrorType)
    ensures t == InvalidInput ==> KeySegment(t) == "invalidinput"
  {
    if t == InvalidInput {
      assert ToLowerAscii(Name(t)) == "invalid" + "_" + "input";
      TwoWordKey(t, "invalid", "input", "invalidinput");
    }
  }

  lemma OverflowSegment(t: ErrorType)
    ensures t == Overflow ==> KeySegment(t) == "overflow"
  {
    if t == Overflow {
      OverflowLower();
      OneWordKey(t, "overflow");
    }
  }

  // A string identity kept in a lemma of its own so that the proofs using it stay fast; it models nothing.
  lemma OverflowLower()
    ensures ToLowerAscii("OVERFLOW") == "overflow" && '_' !in "overflow"
  {
  }

  lemma UnderflowSegment(t: ErrorType)
    ensures t == Underflow ==> KeySegment(t) == "underflow"
  {
    if t == Underflow {
      UnderflowLower();
      OneWordKey(t, "underflow");
    }
  }

  // A string identity kept in a lemma of its own so that the proofs using it stay fast; it models nothing.
  lemma UnderflowLower()
    ensures ToLowerAscii("UNDERFLOW") == "underflow" && '_' !in "underflow"
  {
  }

  lemma InvalidOperationSegment(t: ErrorType)
    ensures t == InvalidOperation ==> KeySegment(t) == "invalidoperation"
  {
    if t == InvalidOperation {
      assert ToLowerAscii(Name(t)) == "invalid" + "_" + "operation";
      TwoWordKey(t, "invalid", "operation", "invalidoperation");
    }
  }

  lemma ExpressionParseErrorSegment(t: ErrorType)
    ensures t == ExpressionParseError ==> KeySegment(t) == "expressionparseerror"
  {
    if t == ExpressionParseError {
      assert ToLowerAscii(Name(t)) == "expression" + "_" + "parse" + "_" + "error";
      ThreeWordKey(t, "expression", "parse", "error", "expressionparseerror");
    }
  }

  lemma KeyFromSegment(t: ErrorType, segment: string, key: string)
    requires KeySegment(t) == segment && "errors." + segment == key
    ensures MessageKey(t) == key
  {
  }

  /** DIVISION_BY_ZERO is looked up under "errors.divisionbyzero". */
  lemma DivisionByZeroKey(t: ErrorType)
    ensures t == DivisionByZero ==> MessageKey(t) == "errors.divisionbyzero"
  {
    DivisionByZeroSegment(t);
    if KeySegment(t) == "divisionbyzero" {
      DivisionByZeroKeyText();
      KeyFromSegment(t, "divisionbyzero", "errors.divisionbyzero");
    }
  }

  // A string identity kept in a lemma of its own so that the proofs using it stay fast; it models nothing.
  lemma DivisionByZeroKeyText()
    ensures "errors." + "divisionbyzero" == "errors.divisionbyzero"
  {
  }

  /** No name holds a point, so neither does a key segment. */
  lemma KeySegmentHasNoPoint(t: ErrorType)
    ensures '.' !in KeySegment(t)
  {
    var lower := ToLowerAscii(Name(t));
    assert '.' !in Name(t);
    assert '.' !in lower by {
      forall k | 0 <= k < |lower| ensures lower[k] != '.' {
        assert Name(t)[k] != '.';
      }
    }
    RemoveAllKeeps(lower, '_');
  }

  /** A path "errors." + segment with a plain segment splits into exactly those two keys. */
  lemma ErrorsPath(segment: string)
    requires Configuration.IsPlainKey(segment)
    ensures Configuration.SplitPath("errors." + segment) == ["errors", segment]
  {
    assert "errors." + segment == "errors" + "." + segment;
    Configuration.TwoKeyPath("errors", segment);
  }

  /** The key is a two-level path: the "errors" map, then the key segment. */
  lemma MessageKeyPath(t: ErrorType)
    ensures Configuration.SplitPath(MessageKey(t)) == ["errors", KeySegment(t)]
  {
    KeySegmentFormat(t);
    KeySegmentHasNoPoint(t);
    ErrorsPath(KeySegment(t));
  }

  /** `getLocalizedMessage`: the settings value under the kind's message key, or null when there is none. */
  function LocalizedMessage(e: CalculatorException, settings: Configuration.AppConfig): Option<Configuration.Value>
    reads settings
  {
    settings.Get(MessageKey(e.errorType))
  }

  /** In the default settings, the "errors" map holds exactly its four camel-case keys. */
  lemma DefaultErrorsLookup(segment: string)
    ensures var found := Configuration.Lookup(Some(Configuration.Node(Configuration.DefaultConfig())), ["errors", segment]);
            && (segment == "overflow" ==> found == Some(Configuration.Str("Number too large")))
            && (segment == "underflow" ==> found == Some(Configuration.Str("Number too small")))
            && (found.Some? ==> segment in ["divisionByZero", "invalidInput", "overflow", "underflow"])
  {
    var root := Some(Configuration.Node(Configuration.DefaultConfig()));
    var m := map[
      "divisionByZero" := Configuration.Str("Cannot divide by zero"),
      "invalidInput" := Configuration.Str("Invalid input"),
      "overflow" := Configuration.Str("Number too large"),
      "underflow" := Configuration.Str("Number too small")];
    assert Configuration.DefaultConfig()["errors"] == Configuration.Node(m);
    assert Configuration.Lookup(root, ["errors", segment]) == Configuration.Lookup(Some(Configuration.Node(m)), [segment]) by {
      assert ["errors", segment][1..] == [segment];
    }
    var next := if segment in m then Some(m[segment]) else None;
    assert Configuration.Lookup(Some(Configuration.Node(m)), [segment]) == Configuration.Lookup(next, []);
  }

  /** Only OVERFLOW and UNDERFLOW have the segments "overflow" and "underflow". */
  lemma FlowSegments(t: ErrorType)
    ensures KeySegment(t) == "overflow" <==> t == Overflow
    ensures KeySegment(t) == "underflow" <==> t == Underflow
  {
    DivisionByZeroSegment(t);
    InvalidInputSegment(t);
    OverflowSegment(t);
    UnderflowSegment(t);
    InvalidOperationSegment(t);
    ExpressionParseErrorSegment(t);
  }

  /**
   * Under the default settings, a lower-case segment finds a message only
   * when it is "overflow" or "underflow": the other default keys are spelled
   * in camel case.
   */
  lemma DefaultMessageFor(segment: string)
    requires Configuration.IsPlainKey(segment)
    requires forall k :: 0 <= k < |segment| ==> !IsUpper(segment[k])
    ensures var found := Configuration.Lookup(Some(Configuration.Node(Configuration.DefaultConfig())),
                                              Configuration.SplitPath("errors." + segment));
            && (found.Some? <==> segment == "overflow" || segment == "underflow")
            && (segment == "overflow" ==> found == Some(Configuration.Str("Number too large")))
            && (segment == "underflow" ==> found == Some(Configuration.Str("Number too small")))
  {
    ErrorsPath(segment);
    DefaultErrorsLookup(segment);
    NotCamelCase(segment);
  }

  /** Text without upper-case letters is neither of the camel-case default keys. */
  lemma NotCamelCase(segment: string)
    requires forall k :: 0 <= k < |segment| ==> !IsUpper(segment[k])
    ensures segment != "divisionByZero" && segment != "invalidInput"
  {
    assert segment != "divisionByZero" by { assert IsUpper("divisionByZero"[8]); }
    assert segment != "invalidInput" by { assert IsUpper("invalidInput"[7]); }
  }

  /**
   * With the default settings only OVERFLOW and UNDERFLOW find a message: the
   * defaults spell the other keys in camel case ("divisionByZero",
   * "invalidInput"), which the lower-cased segment never matches.
   */
  lemma DefaultMessages(t: ErrorType)
    ensures var found := Configuration.Lookup(Some(Configuration.Node(Configuration.DefaultConfig())),
                                              Configuration.SplitPath(MessageKey(t)));
            && (found.Some? <==> t == Overflow || t == Underflow)
            && (t == Overflow ==> found == Some(Configuration.Str("Number too large")))
            && (t == Underflow ==> found == Some(Configuration.Str("Number too small")))
  {
    KeySegmentFormat(t);
    KeySegmentHasNoPoint(t);
    DefaultMessageFor(KeySegment(t));
    FlowSegments(t);
  }
}
