# Calculator core in Dafny

This is a model of the core of a Java Swing desktop calculator. It covers six pieces:

- **Expression evaluator.** A two-stack (shunting-yard style) evaluator for infix expressions with `+ - * / % ^` and parentheses. Its failures are wrapped into a `CalculatorException`.
- **Input validator.** Number, zero-only and integer recognisers that work on trimmed text.
- **Calculation history.** A list of entries with an eviction limit taken from the settings.
- **Settings.** A nested map addressed by dotted paths, with its built-in defaults.
- **Exception.** The exception type, its six error kinds and its message-key derivation.
- **Keypad.** The state machine behind the digit, point, backspace, clear, operator and equals keys.

Java doubles are modelled as exact `real`s. Java `null` is `Option.None`, and a thrown exception is `Result.Failure`. Double `%` and `Math.pow` are left uninterpreted: they are the two function fields of `Numerals.FloatOps`. The keypad's `formatResult` is a given function that never returns empty text.

The files are:

- `wrappers.dfy` holds `Option` and `Result`.
- `java_text.dfy` holds `String.trim`, `isEmpty`, `replaceAll("\\s+", "")`, ASCII `toLowerCase` and `replace("_", "")`.
- `numerals.dfy` holds `Double.parseDouble` restricted to the digit-and-point tokens the evaluator hands it.
- `input_validator.dfy`, `app_config.dfy`, `calculator_exception.dfy`, `calculation_history.dfy` and `calculator_ui.dfy` model one Java class each.
- `expression_evaluator.dfy` and `evaluator_properties.dfy` model `ExpressionEvaluator`. The first holds the evaluator itself. The second holds what is proved about it.

`evaluate` is an imperative method, `ExpressionEvaluator.Evaluate`. It works over two `seq` stacks and is proved equal to the specification function `ExpressionEvaluator.Evaluation`. The properties of the evaluator are lemmas about that function.

`AppConfig`, `CalculationHistory` and the keypad are classes whose methods update their fields. `set` on the nested settings maps is modelled on map values: the maps along the path are rebuilt and written back.

All paths below are relative to the repository root. The Java package directory `src/main/java/com/nayabjalal/calculator` is written in full.

## Model

| member | source | states |
|---|---|---|
| JavaText.IsTrimmable | src/main/java/com/nayabjalal/calculator/util/InputValidator.java:16-27 | a character `String.trim` removes from either end: any code point at or below U+0020 |
| JavaText.TrimStart | src/main/java/com/nayabjalal/calculator/util/InputValidator.java:16-27 | the front half of `String.trim`: drops leading characters at or below U+0020; `TrimStartDropsLeadingRun` states that exactly the leading run goes |
| JavaText.TrimEnd | src/main/java/com/nayabjalal/calculator/util/InputValidator.java:16-27 | the back half of `String.trim`: drops trailing characters at or below U+0020; `TrimEndDropsTrailingRun` states that exactly the trailing run goes |
| JavaText.Trim | src/main/java/com/nayabjalal/calculator/util/ExpressionEvaluator.java:10 | `String.trim`, as used by the validator and by `evaluateExpression`: both ends trimmed; `TrimIgnoresPadding` and `BlankIffAllTrimmable` state its properties |
| JavaText.TrimStartDropsLeadingRun | src/main/java/com/nayabjalal/calculator/util/InputValidator.java:16 | `trim` at the front drops exactly the leading run of characters ≤ U+0020: the result is the text after that run, everything dropped is trimmable, and the first character kept (if any) is not |
| JavaText.TrimEndDropsTrailingRun | src/main/java/com/nayabjalal/calculator/util/InputValidator.java:16 | `trim` at the back drops exactly the trailing run of trimmable characters: the result is a prefix, the rest is trimmable, and the result is empty or ends with a kept character |
| JavaText.IsBlank | src/main/java/com/nayabjalal/calculator/util/ExpressionEvaluator.java:10 | `trim().isEmpty()` |
| JavaText.BlankIffAllTrimmable | src/main/java/com/nayabjalal/calculator/util/ExpressionEvaluator.java:10 | text is blank exactly when every character is ≤ U+0020 |
| JavaText.WhitespaceIsTrimmable | src/main/java/com/nayabjalal/calculator/util/ExpressionEvaluator.java:18 | every `\s` character is also removed by `trim` |
| JavaText.TrimStartSkipsPrefix | src/main/java/com/nayabjalal/calculator/util/InputValidator.java:19 | leading trimmable padding does not change the front-trimmed text |
| JavaText.TrimEndSkipsSuffix | src/main/java/com/nayabjalal/calculator/util/InputValidator.java:19 | trailing trimmable padding does not change the back-trimmed text |
| JavaText.TrimStartKeepsSuffix | src/main/java/com/nayabjalal/calculator/util/InputValidator.java:19 | front trimming commutes with appending trimmable padding, unless everything is trimmed away |
| JavaText.TrimIgnoresPadding | src/main/java/com/nayabjalal/calculator/util/InputValidator.java:19 | `trim` of padded text equals `trim` of the text |
| JavaText.IsWhitespace | src/main/java/com/nayabjalal/calculator/util/ExpressionEvaluator.java:18 | the regular-expression class `\s` that `replaceAll("\\s+", "")` removes: space, tab, line feed, vertical tab, form feed, carriage return |
| JavaText.StripWhitespace | src/main/java/com/nayabjalal/calculator/util/ExpressionEvaluator.java:18 | `replaceAll("\\s+", "")` leaves no whitespace and never lengthens the text |
| JavaText.StripWhitespaceAppend | src/main/java/com/nayabjalal/calculator/util/ExpressionEvaluator.java:18 | whitespace removal distributes over concatenation |
| JavaText.StripWhitespaceFixes | src/main/java/com/nayabjalal/calculator/util/ExpressionEvaluator.java:18 | text without whitespace is unchanged |
| JavaText.StripWhitespaceKeepsBlankness | src/main/java/com/nayabjalal/calculator/util/ExpressionEvaluator.java:10-18 | text is blank exactly when its whitespace-stripped form is |
| JavaText.LowerChar | src/main/java/com/nayabjalal/calculator/exception/CalculatorException.java:32 | an ASCII upper-case letter becomes the letter 32 code points higher, its lower-case form; every other character is left alone; no upper-case letter remains |
| JavaText.ToLowerAscii | src/main/java/com/nayabjalal/calculator/exception/CalculatorException.java:32 | `toLowerCase` keeps the length and lower-cases each character |
| JavaText.RemoveAll | src/main/java/com/nayabjalal/calculator/exception/CalculatorException.java:32 | `replace("_", "")` leaves no `_`, never lengthens, and leaves text without `_` unchanged |
| JavaText.RemoveAllKeeps | src/main/java/com/nayabjalal/calculator/exception/CalculatorException.java:32 | removal introduces no new character |
| JavaText.RemoveAllAppend | src/main/java/com/nayabjalal/calculator/exception/CalculatorException.java:32 | removal distributes over concatenation |
| Numerals.IsDigit | src/main/java/com/nayabjalal/calculator/util/ExpressionEvaluator.java:35-38 | `Character.isDigit`, restricted to the ASCII digits (the gap is under "Left out") |
| Numerals.IsNumberChar | src/main/java/com/nayabjalal/calculator/util/ExpressionEvaluator.java:35-38 | a digit or a decimal point: the test in `evaluate` that starts a number token and extends it |
| Numerals.DotIndex | src/main/java/com/nayabjalal/calculator/util/ExpressionEvaluator.java:42 | the position of the first `.`, or the length when there is none |
| Numerals.ParseDecimal | src/main/java/com/nayabjalal/calculator/util/ExpressionEvaluator.java:42 | `Double.parseDouble` of a digit-and-point token succeeds exactly when the token has a digit and at most one point, with a non-negative value |
| Numerals.NatText | src/main/java/com/nayabjalal/calculator/util/ExpressionEvaluator.java:35-42 | the decimal text of a natural number is a non-empty run of digits |
| Numerals.NatTextValue | src/main/java/com/nayabjalal/calculator/util/ExpressionEvaluator.java:42 | the digits of `n` read back as `n` |
| Numerals.NatTextRoundTrip | src/main/java/com/nayabjalal/calculator/util/ExpressionEvaluator.java:35-42 | the decimal text of `n` is a number token that parses to `n` |
| InputValidator.InClass | src/main/java/com/nayabjalal/calculator/util/InputValidator.java:7-9 | the character classes `\d` and `0` of the three patterns |
| InputValidator.RunLength | src/main/java/com/nayabjalal/calculator/util/InputValidator.java:7-9 | the length of the maximal leading run of one class |
| InputValidator.RunWithOptionalFraction | src/main/java/com/nayabjalal/calculator/util/InputValidator.java:7-8 | the shape `X+(\.X+)?` |
| InputValidator.DropMinus | src/main/java/com/nayabjalal/calculator/util/InputValidator.java:7-9 | the optional leading `-?` is removed, and only it |
| InputValidator.NumberParts | src/main/java/com/nayabjalal/calculator/util/InputValidator.java:7 | the language of `-?\d+(\.\d+)?` given by its parts |
| InputValidator.MatchesNumber | src/main/java/com/nayabjalal/calculator/util/InputValidator.java:7 | the whole text matches `-?\d+(\.\d+)?`, read greedily; its language is stated by `NumberRegexLanguage` |
| InputValidator.MatchesZero | src/main/java/com/nayabjalal/calculator/util/InputValidator.java:8 | the whole text matches `0+(\.0+)?`, read greedily; its language is stated by `ZeroRegexLanguage` |
| InputValidator.MatchesInteger | src/main/java/com/nayabjalal/calculator/util/InputValidator.java:9 | the whole text matches `-?\d+`; its language is stated by `IntegerRegexLanguage` |
| InputValidator.IsValidNumber | src/main/java/com/nayabjalal/calculator/util/InputValidator.java:15-20 | false for null and for blank text, otherwise whether the trimmed text matches the number pattern |
| InputValidator.IsZeroOnly | src/main/java/com/nayabjalal/calculator/util/InputValidator.java:22-24 | non-null, and the trimmed text matches the zero pattern |
| InputValidator.IsInteger | src/main/java/com/nayabjalal/calculator/util/InputValidator.java:26-28 | non-null, and the trimmed text matches the integer pattern |
| InputValidator.FractionParts | src/main/java/com/nayabjalal/calculator/util/InputValidator.java:7-8 | the language of `X+(\.X+)?` given by its parts |
| InputValidator.RunWithOptionalFractionLanguage | src/main/java/com/nayabjalal/calculator/util/InputValidator.java:7-8 | the greedy reading of `X+(\.X+)?` accepts exactly its language (both directions) |
| InputValidator.ZeroRegexLanguage | src/main/java/com/nayabjalal/calculator/util/InputValidator.java:8 | the zero recogniser accepts exactly the language of `0+(\.0+)?` (both directions) |
| InputValidator.IntegerParts | src/main/java/com/nayabjalal/calculator/util/InputValidator.java:9 | the language of `-?\d+` given by its parts |
| InputValidator.IntegerRegexLanguage | src/main/java/com/nayabjalal/calculator/util/InputValidator.java:9 | the integer recogniser accepts exactly the language of `-?\d+` (both directions) |
| InputValidator.RunLengthOfPrefix | src/main/java/com/nayabjalal/calculator/util/InputValidator.java:7 | a run followed by a character outside the class has exactly its own length |
| InputValidator.GreedyMatchHasParts | src/main/java/com/nayabjalal/calculator/util/InputValidator.java:7 | a greedy match splits into sign, whole digits and fraction |
| InputValidator.PartsMatchGreedily | src/main/java/com/nayabjalal/calculator/util/InputValidator.java:7 | any sign/whole/fraction split is accepted by the greedy matcher |
| InputValidator.NumberRegexLanguage | src/main/java/com/nayabjalal/calculator/util/InputValidator.java:7-19 | the number recogniser accepts exactly the language of `-?\d+(\.\d+)?` (both directions) |
| InputValidator.IntegerTextIsNumber | src/main/java/com/nayabjalal/calculator/util/InputValidator.java:7-9 | text matching `-?\d+` matches the number pattern |
| InputValidator.ZeroTextIsNumber | src/main/java/com/nayabjalal/calculator/util/InputValidator.java:7-8 | text matching `0+(\.0+)?` matches the number pattern |
| InputValidator.IntegerAndZeroAreNumbers | src/main/java/com/nayabjalal/calculator/util/InputValidator.java:15-28 | whatever `isInteger` or `isZeroOnly` accepts, `isValidNumber` accepts |
| InputValidator.PaddingIgnored | src/main/java/com/nayabjalal/calculator/util/InputValidator.java:19-27 | all three predicates ignore leading and trailing characters ≤ U+0020 |
| InputValidator.NullOrBlankIsNotANumber | src/main/java/com/nayabjalal/calculator/util/InputValidator.java:16-18 | `isValidNumber` is false for null and for blank text |
| InputValidator.NumberTextParses | src/main/java/com/nayabjalal/calculator/util/InputValidator.java:7 | a valid number without its sign is a token `parseDouble` accepts |
| InputValidator.ParseValidNumber | src/main/java/com/nayabjalal/calculator/util/ExpressionEvaluator.java:42 | `Double.parseDouble` of a valid number: the decimal value of its digits, negated under a leading minus; `WholeNumberRoundTrip` shows it reads back whole numbers |
| InputValidator.WholeNumberRoundTrip | src/main/java/com/nayabjalal/calculator/util/InputValidator.java:15-20 | the text of `n` and of `-n` are valid numbers and read back as `n` and `-n` |
| InputValidator.UntrimmedEnds | src/main/java/com/nayabjalal/calculator/util/InputValidator.java:16-19 | text with non-trimmable ends is its own trim and is not blank |
| InputValidator.NumberExamples | src/main/java/com/nayabjalal/calculator/util/InputValidator.java:7-20 | `"1."`, `".5"` and `"+1"` are rejected and `"-12.5"` is accepted |
| InputValidator.ZeroExamples | src/main/java/com/nayabjalal/calculator/util/InputValidator.java:8-24 | `"0."` and `"-0"` are not zero-only, while `"000"` and `"0.00"` are |
| Configuration.SplitOnDots | src/main/java/com/nayabjalal/calculator/config/AppConfig.java:81 | splitting at `.` gives at least one piece and no piece holds a `.` |
| Configuration.DropTrailingEmpty | src/main/java/com/nayabjalal/calculator/config/AppConfig.java:81 | `String.split` drops exactly the trailing empty pieces |
| Configuration.SplitPath | src/main/java/com/nayabjalal/calculator/config/AppConfig.java:81-95 | no key of a split path holds a `.` |
| Configuration.JoinPath | src/main/java/com/nayabjalal/calculator/config/AppConfig.java:81 | the dotted path of a key list; `SplitJoinRoundTrip` shows `split` inverts it for plain keys |
| Configuration.IsPlainKey | src/main/java/com/nayabjalal/calculator/config/AppConfig.java:81 | a non-empty key without `.` |
| Configuration.SplitOnDotsJoin | src/main/java/com/nayabjalal/calculator/config/AppConfig.java:81 | splitting the dotted join of dot-free keys gives the keys back |
| Configuration.SplitAtFirstPoint | src/main/java/com/nayabjalal/calculator/config/AppConfig.java:81 | a point-free key, a point and the rest split into that key followed by the pieces of the rest |
| Configuration.JoinPathPoints | src/main/java/com/nayabjalal/calculator/config/AppConfig.java:81 | the joined path has a point exactly when it joins two keys or more |
| Configuration.SplitJoinRoundTrip | src/main/java/com/nayabjalal/calculator/config/AppConfig.java:81 | `path.split("\\.")` of a dotted join of plain keys gives the keys back |
| Configuration.TwoKeyPath | src/main/java/com/nayabjalal/calculator/config/AppConfig.java:81 | `a.b` with plain keys `a` and `b` splits into exactly `[a, b]` |
| Configuration.SplitExamples | src/main/java/com/nayabjalal/calculator/config/AppConfig.java:81 | `""` splits to one empty key, and `"a."` splits to `["a"]` |
| Configuration.SplitOnlyPoint | src/main/java/com/nayabjalal/calculator/config/AppConfig.java:81 | `"."` splits to no keys at all |
| Configuration.SplitDoublePoint | src/main/java/com/nayabjalal/calculator/config/AppConfig.java:81 | `"a..b"` splits to `["a", "", "b"]`, the empty middle key kept |
| Configuration.IsLeaf | src/main/java/com/nayabjalal/calculator/config/AppConfig.java:85 | a found value that is not a map |
| Configuration.LookupAppend | src/main/java/com/nayabjalal/calculator/config/AppConfig.java:84-90 | the walk of `get` over `p + q` is the walk over `q` from where `p` ends |
| Configuration.LookupFromLeafOrNull | src/main/java/com/nayabjalal/calculator/config/AppConfig.java:85-89 | from null, or from a non-map with keys left, `get` yields null |
| Configuration.GetStopsEarly | src/main/java/com/nayabjalal/calculator/config/AppConfig.java:84-90 | a missing or non-map value before the last key makes `get` yield null |
| Configuration.Lookup | src/main/java/com/nayabjalal/calculator/config/AppConfig.java:82-91 | the walk of `get`: one level deeper per key while the value is a map, null on a missing key or a non-map value with keys left; `LookupAppend` and `GetStopsEarly` state its properties |
| Configuration.Child | src/main/java/com/nayabjalal/calculator/config/AppConfig.java:99 | `computeIfAbsent` plus the cast: a missing key gives an empty map, and a non-map value gives none |
| Configuration.SetPath | src/main/java/com/nayabjalal/calculator/config/AppConfig.java:94-101 | after a successful `set`, the first key is bound and every other top-level key is unchanged |
| Configuration.GetAfterSet | src/main/java/com/nayabjalal/calculator/config/AppConfig.java:80-101 | `get(path)` after a successful `set(path, v)` yields `v` |
| Configuration.LeavesPathAt | src/main/java/com/nayabjalal/calculator/config/AppConfig.java:99-101 | a path that leaves the set path at some level |
| Configuration.SetLeavesOtherPathsAlone | src/main/java/com/nayabjalal/calculator/config/AppConfig.java:99-101 | every path that leaves the set path at any level reads the same before and after `set` |
| Configuration.SetOnEmptySucceeds | src/main/java/com/nayabjalal/calculator/config/AppConfig.java:98-101 | on an empty map, `set` creates the intermediate maps and succeeds |
| Configuration.Blocked | src/main/java/com/nayabjalal/calculator/config/AppConfig.java:99 | some intermediate key already holds a non-map value |
| Configuration.BlockedOneLevelDown | src/main/java/com/nayabjalal/calculator/config/AppConfig.java:98-100 | a blocked path through an existing map is blocked in that map |
| Configuration.NotBlockedBelowMissingKey | src/main/java/com/nayabjalal/calculator/config/AppConfig.java:99 | below a missing key nothing can block |
| Configuration.SetFailsIffBlocked | src/main/java/com/nayabjalal/calculator/config/AppConfig.java:95-101 | `set` fails exactly when the path has no keys (index out of bounds) or an intermediate key holds a non-map (class cast) |
| Configuration.DefaultConfig | src/main/java/com/nayabjalal/calculator/config/AppConfig.java:40-68 | the defaults: `maxHistorySize` 50, theme `"Light"`, the two flags true, the four shortcuts, the four error messages, and exactly three top-level sections |
| Configuration.AppConfig.constructor | src/main/java/com/nayabjalal/calculator/config/AppConfig.java:25-38 | the loaded tree, or the defaults when nothing was loaded |
| Configuration.AppConfig.Get | src/main/java/com/nayabjalal/calculator/config/AppConfig.java:80-92 | a path with no keys yields the whole tree, a missing first key yields null, and a one-key path yields that entry |
| Configuration.AppConfig.Set | src/main/java/com/nayabjalal/calculator/config/AppConfig.java:94-103 | the tree becomes the result of `SetPath`, and on failure it is unchanged and the failure is reported |
| Configuration.SetInTree | src/main/java/com/nayabjalal/calculator/config/AppConfig.java:95-101 | the descend-and-write-back loops compute `SetPath` |
| Configuration.DescendOneLevel | src/main/java/com/nayabjalal/calculator/config/AppConfig.java:98-100 | one step of the descent keeps the loop invariant |
| Configuration.DescendBlocked | src/main/java/com/nayabjalal/calculator/config/AppConfig.java:99 | a non-map intermediate value makes the whole `set` fail with a class cast |
| Configuration.ExtendTrail | src/main/java/com/nayabjalal/calculator/config/AppConfig.java:98-99 | one pass of the descent loop: the map reached is appended to the trail and the pending `set` is unchanged |
| Configuration.SetLastKey | src/main/java/com/nayabjalal/calculator/config/AppConfig.java:101 | the last key is bound to the value in the map reached |
| Configuration.RewrapStep | src/main/java/com/nayabjalal/calculator/config/AppConfig.java:99-101 | writing a changed map back into its parent is one level of the rebuilt tree |
| Errors.Name | src/main/java/com/nayabjalal/calculator/exception/CalculatorException.java:8-15 | the enum constant names |
| Errors.MessageKey | src/main/java/com/nayabjalal/calculator/exception/CalculatorException.java:32 | the settings path `"errors."` followed by the kind's key segment; `KeySegmentFormat` and `ErrorsPath` state its form |
| Errors.LocalizedMessage | src/main/java/com/nayabjalal/calculator/exception/CalculatorException.java:31-33 | the settings value under the kind's message key, or null when there is none |
| Errors.SixErrorTypes | src/main/java/com/nayabjalal/calculator/exception/CalculatorException.java:8-15 | there are exactly six kinds, with distinct names |
| Errors.Create | src/main/java/com/nayabjalal/calculator/exception/CalculatorException.java:17-29 | `getErrorType` returns the kind given, with the message and no cause |
| Errors.CreateWithCause | src/main/java/com/nayabjalal/calculator/exception/CalculatorException.java:22-29 | `getErrorType` returns the kind given, with the message and the cause |
| Errors.KeySegment | src/main/java/com/nayabjalal/calculator/exception/CalculatorException.java:32 | the key segment has no `_` |
| Errors.KeySegmentFormat | src/main/java/com/nayabjalal/calculator/exception/CalculatorException.java:32 | the key segment is non-empty, with no `_` and no upper-case letter |
| Errors.StripAroundUnderscore | src/main/java/com/nayabjalal/calculator/exception/CalculatorException.java:32 | removing `_` from `a_b` joins the two parts |
| Errors.StripTwoWords | src/main/java/com/nayabjalal/calculator/exception/CalculatorException.java:32 | two words joined by `_` become their concatenation |
| Errors.StripThreeWords | src/main/java/com/nayabjalal/calculator/exception/CalculatorException.java:32 | three words joined by `_` become their concatenation |
| Errors.OneWordKey | src/main/java/com/nayabjalal/calculator/exception/CalculatorException.java:32 | a one-word kind name gives its lower-case word |
| Errors.TwoWordKey | src/main/java/com/nayabjalal/calculator/exception/CalculatorException.java:32 | a two-word kind name gives the concatenated lower-case words |
| Errors.ThreeWordKey | src/main/java/com/nayabjalal/calculator/exception/CalculatorException.java:32 | a three-word kind name gives the concatenated lower-case words |
| Errors.DivisionByZeroSegment | src/main/java/com/nayabjalal/calculator/exception/CalculatorException.java:9-32 | `DIVISION_BY_ZERO` gives `divisionbyzero` |
| Errors.InvalidInputSegment | src/main/java/com/nayabjalal/calculator/exception/CalculatorException.java:10-32 | `INVALID_INPUT` gives `invalidinput` |
| Errors.OverflowSegment | src/main/java/com/nayabjalal/calculator/exception/CalculatorException.java:11-32 | `OVERFLOW` gives `overflow` |
| Errors.UnderflowSegment | src/main/java/com/nayabjalal/calculator/exception/CalculatorException.java:12-32 | `UNDERFLOW` gives `underflow` |
| Errors.InvalidOperationSegment | src/main/java/com/nayabjalal/calculator/exception/CalculatorException.java:13-32 | `INVALID_OPERATION` gives `invalidoperation` |
| Errors.ExpressionParseErrorSegment | src/main/java/com/nayabjalal/calculator/exception/CalculatorException.java:14-32 | `EXPRESSION_PARSE_ERROR` gives `expressionparseerror` |
| Errors.KeyFromSegment | src/main/java/com/nayabjalal/calculator/exception/CalculatorException.java:32 | the key is `"errors."` followed by the segment |
| Errors.DivisionByZeroKey | src/main/java/com/nayabjalal/calculator/exception/CalculatorException.java:32 | `DIVISION_BY_ZERO` gives the key `"errors.divisionbyzero"` |
| Errors.KeySegmentHasNoPoint | src/main/java/com/nayabjalal/calculator/exception/CalculatorException.java:32 | no segment holds a `.` |
| Errors.MessageKeyPath | src/main/java/com/nayabjalal/calculator/exception/CalculatorException.java:32 | the key splits into exactly `["errors", segment]` |
| Errors.ErrorsPath | src/main/java/com/nayabjalal/calculator/exception/CalculatorException.java:32 | `"errors." + segment` splits into exactly `["errors", segment]` for a plain segment |
| Errors.DefaultErrorsLookup | src/main/java/com/nayabjalal/calculator/config/AppConfig.java:59-65 | the default `errors` section holds only its four keys, and `overflow` and `underflow` carry their messages |
| Errors.FlowSegments | src/main/java/com/nayabjalal/calculator/exception/CalculatorException.java:11-32 | only `OVERFLOW` gives `overflow`, and only `UNDERFLOW` gives `underflow` |
| Errors.DefaultMessageFor | src/main/java/com/nayabjalal/calculator/exception/CalculatorException.java:31-33 | under the defaults a lower-case segment finds a message exactly when it is `overflow` or `underflow`, and finds their texts |
| Errors.DefaultMessages | src/main/java/com/nayabjalal/calculator/exception/CalculatorException.java:31-33 | against the defaults exactly `OVERFLOW` and `UNDERFLOW` find a message; the camelCase keys never match |
| ExpressionEvaluator.HasPrecedence | src/main/java/com/nayabjalal/calculator/util/ExpressionEvaluator.java:72-77 | a parenthesis on top never has precedence; for operators it holds exactly when the top binds at least as tightly |
| ExpressionEvaluator.IsOperator | src/main/java/com/nayabjalal/calculator/util/ExpressionEvaluator.java:68-70 | the six binary operators `+ - * / % ^` |
| ExpressionEvaluator.Tier | src/main/java/com/nayabjalal/calculator/util/ExpressionEvaluator.java:72-77 | `+ -` bind loosest, `* / %` in between, `^` tightest, each tier named by exactly its operators |
| ExpressionEvaluator.ApplyOperation | src/main/java/com/nayabjalal/calculator/util/ExpressionEvaluator.java:79-100 | it fails exactly on a non-operator (`INVALID_OPERATION`) or a division by zero (`DIVISION_BY_ZERO`), with their messages, and `+ - * /` compute `a op b` |
| ExpressionEvaluator.Stacks | src/main/java/com/nayabjalal/calculator/util/ExpressionEvaluator.java:29-30 | the two `Stack` objects of `evaluate`, operand values and operator characters, tops last |
| ExpressionEvaluator.Reduce | src/main/java/com/nayabjalal/calculator/util/ExpressionEvaluator.java:49-62 | a pop on empty stacks fails, and success pops one operator and two operands and pushes one operand |
| ExpressionEvaluator.ReduceAll | src/main/java/com/nayabjalal/calculator/util/ExpressionEvaluator.java:61-63 | the final loop empties the operator stack |
| ExpressionEvaluator.CloseParen | src/main/java/com/nayabjalal/calculator/util/ExpressionEvaluator.java:47-52 | fails when no `(` is on the operator stack; on success exactly the operators down to the topmost `(` are popped, that `(` included |
| ExpressionEvaluator.PushOperator | src/main/java/com/nayabjalal/calculator/util/ExpressionEvaluator.java:53-58 | the operator case: reduce while the top has precedence, then push; `PushOperatorPushes` states its result |
| ExpressionEvaluator.PushOperatorPushes | src/main/java/com/nayabjalal/calculator/util/ExpressionEvaluator.java:53-58 | on success the operator is on top, above a prefix of the old operator stack; with an empty stack or a top without precedence it is pushed at once |
| ExpressionEvaluator.Scan | src/main/java/com/nayabjalal/calculator/util/ExpressionEvaluator.java:32-59 | the scan of the text: number tokens parsed and pushed, `(` pushed, `)` closing, operators pushed after their reductions, other characters skipped; the `Scan*` lemmas state each case |
| ExpressionEvaluator.Conclude | src/main/java/com/nayabjalal/calculator/util/ExpressionEvaluator.java:61-65 | the final reductions, then the pop of the top operand, failing on an empty stack |
| ExpressionEvaluator.Finish | src/main/java/com/nayabjalal/calculator/util/ExpressionEvaluator.java:32-65 | the scan of the remaining text followed by `Conclude`; `FinishNumberStep`, `FinishCharStep` and `FinishAtEnd` state its steps |
| ExpressionEvaluator.NumberRunLength | src/main/java/com/nayabjalal/calculator/util/ExpressionEvaluator.java:35-41 | a number token is the maximal run of digits and points |
| ExpressionEvaluator.Evaluation | src/main/java/com/nayabjalal/calculator/util/ExpressionEvaluator.java:28-66 | the evaluation of an expression, as a function of its text |
| ExpressionEvaluator.PopAndApply | src/main/java/com/nayabjalal/calculator/util/ExpressionEvaluator.java:49-62 | one pop-pop-pop-apply-push step computes `Reduce` |
| ExpressionEvaluator.NumberRunIsMaximal | src/main/java/com/nayabjalal/calculator/util/ExpressionEvaluator.java:37-39 | any maximal run has the length `NumberRunLength` gives |
| ExpressionEvaluator.SkipNumberRun | src/main/java/com/nayabjalal/calculator/util/ExpressionEvaluator.java:36-40 | the inner `while` stops right after the token |
| ExpressionEvaluator.PopToOpenParen | src/main/java/com/nayabjalal/calculator/util/ExpressionEvaluator.java:47-52 | the `)` branch computes `CloseParen` |
| ExpressionEvaluator.PushAfterReducing | src/main/java/com/nayabjalal/calculator/util/ExpressionEvaluator.java:53-58 | the operator branch computes `PushOperator` |
| ExpressionEvaluator.PopAll | src/main/java/com/nayabjalal/calculator/util/ExpressionEvaluator.java:61-63 | the final loop computes `ReduceAll` |
| ExpressionEvaluator.FinishNumberStep | src/main/java/com/nayabjalal/calculator/util/ExpressionEvaluator.java:35-42 | a number token is parsed and pushed and the scan goes on after it, or its parse error ends the evaluation |
| ExpressionEvaluator.FinishCharStep | src/main/java/com/nayabjalal/calculator/util/ExpressionEvaluator.java:44-58 | `(` is pushed, `)` closes, an operator reduces and is pushed, any other character is skipped; a failure ends the evaluation |
| ExpressionEvaluator.FinishAtEnd | src/main/java/com/nayabjalal/calculator/util/ExpressionEvaluator.java:59-65 | once the whole text is scanned, what remains is the final reduction and pop |
| ExpressionEvaluator.Evaluate | src/main/java/com/nayabjalal/calculator/util/ExpressionEvaluator.java:28-66 | the imperative `evaluate` yields exactly `Evaluation` |
| ExpressionEvaluator.Outcome | src/main/java/com/nayabjalal/calculator/util/ExpressionEvaluator.java:9-26 | `INVALID_INPUT` exactly for null or blank input; only it and `EXPRESSION_PARSE_ERROR` escape; a parse error carries the inner failure as its cause; success is the evaluation of the whitespace-stripped text |
| ExpressionEvaluator.EvaluateExpression | src/main/java/com/nayabjalal/calculator/util/ExpressionEvaluator.java:9-26 | `evaluateExpression` yields `Outcome` |
| EvaluatorProperties.ScanNumber | src/main/java/com/nayabjalal/calculator/util/ExpressionEvaluator.java:35-43 | a whole-number token pushes its value and scanning resumes after it |
| EvaluatorProperties.ScanOperator | src/main/java/com/nayabjalal/calculator/util/ExpressionEvaluator.java:53-58 | an operator character reduces then pushes, or propagates the failure |
| EvaluatorProperties.FinishFromScan | src/main/java/com/nayabjalal/calculator/util/ExpressionEvaluator.java:32-65 | equal scan results finish equally |
| EvaluatorProperties.Render | src/main/java/com/nayabjalal/calculator/util/ExpressionEvaluator.java:32-58 | the text of an operator/number chain starts with its first operator |
| EvaluatorProperties.RenderStep | src/main/java/com/nayabjalal/calculator/util/ExpressionEvaluator.java:32-58 | one step of rendering a chain |
| EvaluatorProperties.ReduceTop | src/main/java/com/nayabjalal/calculator/util/ExpressionEvaluator.java:49-79 | reducing the top two operands applies the top operator to them, left operand first |
| EvaluatorProperties.PushOntoEmpty | src/main/java/com/nayabjalal/calculator/util/ExpressionEvaluator.java:53-58 | an operator on an empty operator stack is pushed at once |
| EvaluatorProperties.ScanOperatorThenNumber | src/main/java/com/nayabjalal/calculator/util/ExpressionEvaluator.java:35-58 | an operator then a number pushes both |
| EvaluatorProperties.ChainStep | src/main/java/com/nayabjalal/calculator/util/ExpressionEvaluator.java:53-77 | an operator that does not bind tighter folds the pending one first |
| EvaluatorProperties.ChainPush | src/main/java/com/nayabjalal/calculator/util/ExpressionEvaluator.java:53-57 | an operator that does not bind tighter folds the pending one, then stands alone on the operator stack |
| EvaluatorProperties.ChainStepFails | src/main/java/com/nayabjalal/calculator/util/ExpressionEvaluator.java:53-100 | a failing fold stops the scan with that failure |
| EvaluatorProperties.ChainEnd | src/main/java/com/nayabjalal/calculator/util/ExpressionEvaluator.java:61-65 | the final loop folds the last pending operator |
| EvaluatorProperties.FoldFrom | src/main/java/com/nayabjalal/calculator/util/ExpressionEvaluator.java:32-65 | a chain whose operators never bind tighter further right is folded from the left |
| EvaluatorProperties.ChainEvaluatesLeftToRight | src/main/java/com/nayabjalal/calculator/util/ExpressionEvaluator.java:54-77 | every operator is left-associative: a chain of natural-number tokens (the statement covers only such operands) with non-rising binding evaluates as the left fold, so `10-2-3` is `(10-2)-3` and `2^3^2` is `(2^3)^2` |
| EvaluatorProperties.ChainFromFirst | src/main/java/com/nayabjalal/calculator/util/ExpressionEvaluator.java:32-65 | after the first operand, the chain folds from the left |
| EvaluatorProperties.TighterOperatorFirst | src/main/java/com/nayabjalal/calculator/util/ExpressionEvaluator.java:54-77 | in `a op1 b op2 c`, for natural-number tokens `a`, `b`, `c` (the statement covers only such operands), with `op2` binding tighter, `b op2 c` is computed first (`2+3*4` is 14) |
| EvaluatorProperties.ScanLooserThenTighter | src/main/java/com/nayabjalal/calculator/util/ExpressionEvaluator.java:53-77 | a tighter operator is stacked above a looser one |
| EvaluatorProperties.ScanFirstPair | src/main/java/com/nayabjalal/calculator/util/ExpressionEvaluator.java:35-58 | `a op b` stacks two operands and one operator |
| EvaluatorProperties.FirstPairPushes | src/main/java/com/nayabjalal/calculator/util/ExpressionEvaluator.java:42-57 | `a op b` pushes `a`, then `op` onto the empty operator stack, then `b` |
| EvaluatorProperties.ScanTighterOperand | src/main/java/com/nayabjalal/calculator/util/ExpressionEvaluator.java:53-58 | a tighter operator and operand are pushed without folding |
| EvaluatorProperties.ConcludeTwoPending | src/main/java/com/nayabjalal/calculator/util/ExpressionEvaluator.java:61-65 | the final loop folds two pending operators from the top down |
| EvaluatorProperties.ConcludeOnePending | src/main/java/com/nayabjalal/calculator/util/ExpressionEvaluator.java:61-65 | the final loop folds one pending operator over two operands |
| EvaluatorProperties.DivisionByZeroReported | src/main/java/com/nayabjalal/calculator/util/ExpressionEvaluator.java:84-91 | `a/0` fails with `DIVISION_BY_ZERO` |
| EvaluatorProperties.RemainderByZeroNotReported | src/main/java/com/nayabjalal/calculator/util/ExpressionEvaluator.java:92 | `a%0` is not checked and yields the remainder operation's value |
| EvaluatorProperties.SingleStep | src/main/java/com/nayabjalal/calculator/util/ExpressionEvaluator.java:28-100 | `a op b` evaluates to `applyOperation(op, b, a)` |
| EvaluatorProperties.MalformedNumberReported | src/main/java/com/nayabjalal/calculator/util/ExpressionEvaluator.java:35-42 | a token with no digit or with two points fails with `NumberFormatException` on that token |
| EvaluatorProperties.DivisionByZeroWrapped | src/main/java/com/nayabjalal/calculator/util/ExpressionEvaluator.java:17-25 | `evaluateExpression("a/0")` throws `EXPRESSION_PARSE_ERROR` with its message and the `DIVISION_BY_ZERO` exception as its cause |
| EvaluatorProperties.UntrimmedText | src/main/java/com/nayabjalal/calculator/util/ExpressionEvaluator.java:10 | text starting with a digit is not blank |
| EvaluatorProperties.IsIgnored | src/main/java/com/nayabjalal/calculator/util/ExpressionEvaluator.java:32-58 | a character no branch of the loop handles |
| EvaluatorProperties.ScanIgnored | src/main/java/com/nayabjalal/calculator/util/ExpressionEvaluator.java:32-58 | such characters are skipped |
| EvaluatorProperties.ScanOpen | src/main/java/com/nayabjalal/calculator/util/ExpressionEvaluator.java:44-46 | `(` is pushed on the operator stack |
| EvaluatorProperties.IgnoredCharacterLeavesTopOperand | src/main/java/com/nayabjalal/calculator/util/ExpressionEvaluator.java:32-65 | `a x b` with an ignored `x` yields `b`, the top operand |
| EvaluatorProperties.ScanIgnoredBetween | src/main/java/com/nayabjalal/calculator/util/ExpressionEvaluator.java:32-58 | the scan of `a x b` with an ignored `x` leaves both operands and no operator |
| EvaluatorProperties.ParenthesisedOperandWins | src/main/java/com/nayabjalal/calculator/util/ExpressionEvaluator.java:44-65 | `2(3)` yields 3: the leftover operand below is ignored |
| EvaluatorProperties.ScanClose | src/main/java/com/nayabjalal/calculator/util/ExpressionEvaluator.java:47-52 | `)` runs the closing loop and scanning resumes after it, or its failure ends the scan |
| EvaluatorProperties.ScanEnclosedOperand | src/main/java/com/nayabjalal/calculator/util/ExpressionEvaluator.java:44-52 | `(b)` pushes `b` and leaves no parenthesis |
| EvaluatorProperties.ScanParenthesised | src/main/java/com/nayabjalal/calculator/util/ExpressionEvaluator.java:35-52 | the scan of `a(b)` leaves the operands `a` and `b` and no operator |
| EvaluatorProperties.UnclosedParenthesisReported | src/main/java/com/nayabjalal/calculator/util/ExpressionEvaluator.java:61-98 | an unclosed `(` reaches the `INVALID_OPERATION` default, or fails on a missing operand |
| EvaluatorProperties.UnclosedAfterOperand | src/main/java/com/nayabjalal/calculator/util/ExpressionEvaluator.java:61-98 | `a(b` fails with `Invalid operator: (` |
| EvaluatorProperties.ScanOpenAfterOperand | src/main/java/com/nayabjalal/calculator/util/ExpressionEvaluator.java:35-46 | the scan of `a(b` leaves the operands `a` and `b` with `(` pending |
| EvaluatorProperties.OpenOnTopAtEnd | src/main/java/com/nayabjalal/calculator/util/ExpressionEvaluator.java:61-98 | a `(` left on top at the end is applied as an operator and fails |
| EvaluatorProperties.OpenApplied | src/main/java/com/nayabjalal/calculator/util/ExpressionEvaluator.java:94-98 | `(` applied as an operator throws INVALID_OPERATION with `Invalid operator: (` |
| EvaluatorProperties.UnclosedAlone | src/main/java/com/nayabjalal/calculator/util/ExpressionEvaluator.java:61-62 | `(b` fails on the missing operand |
| EvaluatorProperties.UnmatchedCloseReported | src/main/java/com/nayabjalal/calculator/util/ExpressionEvaluator.java:47-51 | a `)` with no `(` fails on the empty operator stack |
| EvaluatorProperties.Walk | src/main/java/com/nayabjalal/calculator/util/ExpressionEvaluator.java:44-52 | the parenthesis depth along the text, or none when it goes negative |
| EvaluatorProperties.OpensPush | src/main/java/com/nayabjalal/calculator/util/ExpressionEvaluator.java:45 | pushing `(` raises the open count by one, and pushing anything else leaves it |
| EvaluatorProperties.ReduceKeepsOpens | src/main/java/com/nayabjalal/calculator/util/ExpressionEvaluator.java:49-56 | a successful reduction pops no `(` |
| EvaluatorProperties.CloseParenLowersOpens | src/main/java/com/nayabjalal/calculator/util/ExpressionEvaluator.java:47-52 | a successful `)` needs an open `(` and removes exactly one |
| EvaluatorProperties.PushOperatorKeepsOpens | src/main/java/com/nayabjalal/calculator/util/ExpressionEvaluator.java:53-58 | an operator leaves the number of open parentheses unchanged |
| EvaluatorProperties.ReduceAllNeedsNoOpens | src/main/java/com/nayabjalal/calculator/util/ExpressionEvaluator.java:61-98 | the final loop succeeds only with no `(` left |
| EvaluatorProperties.WalkSkips | src/main/java/com/nayabjalal/calculator/util/ExpressionEvaluator.java:44-52 | characters other than parentheses do not change the depth |
| EvaluatorProperties.ScanTracksDepth | src/main/java/com/nayabjalal/calculator/util/ExpressionEvaluator.java:32-58 | a successful scan keeps the open count equal to the text's parenthesis depth |
| EvaluatorProperties.AcceptedIsBalanced | src/main/java/com/nayabjalal/calculator/util/ExpressionEvaluator.java:28-66 | every accepted expression has balanced parentheses |
| EvaluatorProperties.WhitespaceIgnored | src/main/java/com/nayabjalal/calculator/util/ExpressionEvaluator.java:10-25 | texts equal up to whitespace have the same outcome: same blankness, same success and value, same error kind and cause |
| EvaluatorProperties.BlanknessAgrees | src/main/java/com/nayabjalal/calculator/util/ExpressionEvaluator.java:10 | texts equal up to whitespace are both blank or both not |
| History.IsInt32 | src/main/java/com/nayabjalal/calculator/history/CalculationHistory.java:101 | the Java `int` range |
| History.Wrap32 | src/main/java/com/nayabjalal/calculator/history/CalculationHistory.java:101 | 32-bit wrap-around lands in range and leaves in-range values alone |
| History.MaxSize | src/main/java/com/nayabjalal/calculator/history/CalculationHistory.java:75 | an absent limit is null, an integer limit is that integer, and anything else is a class cast |
| History.AfterAdd | src/main/java/com/nayabjalal/calculator/history/CalculationHistory.java:71-78 | the entry is appended last and earlier entries keep their order; when a limit is set and the list with the entry exceeds it, exactly the oldest entry is evicted, and otherwise nothing is; with no limit nothing is evicted; a list within the limit stays within it |
| History.Recent | src/main/java/com/nayabjalal/calculator/history/CalculationHistory.java:100-103 | a count ≥ 0 gives the last `min(count, size)` entries in order; a negative count throws unless `size - count` overflows |
| History.CalculationHistory.constructor | src/main/java/com/nayabjalal/calculator/history/CalculationHistory.java:58-69 | the loaded list, or an empty one |
| History.CalculationHistory.AddCalculation | src/main/java/com/nayabjalal/calculator/history/CalculationHistory.java:71-81 | the history becomes `AfterAdd` under the configured limit; a non-integer limit throws after the append |
| History.CalculationHistory.GetHistory | src/main/java/com/nayabjalal/calculator/history/CalculationHistory.java:91-93 | a copy equal to the history |
| History.CalculationHistory.ClearHistory | src/main/java/com/nayabjalal/calculator/history/CalculationHistory.java:95-98 | the history is empty |
| History.CalculationHistory.GetRecentHistory | src/main/java/com/nayabjalal/calculator/history/CalculationHistory.java:100-103 | yields `Recent` and changes nothing |
| History.DefaultLimit | src/main/java/com/nayabjalal/calculator/history/CalculationHistory.java:75 | with the default settings the limit is 50 |
| History.AddsStayBounded | src/main/java/com/nayabjalal/calculator/history/CalculationHistory.java:71-103 | repeated additions under a limit ≥ 1 keep the history within it, and `getRecentHistory(1)` is the last entry added |
| History.AddAll | src/main/java/com/nayabjalal/calculator/history/CalculationHistory.java:71-78 | the history after `addCalculation` of each entry in turn under one limit |
| History.UnlimitedAddsAppend | src/main/java/com/nayabjalal/calculator/history/CalculationHistory.java:72-76 | with no limit, additions only append, in order |
| Keypad.Calculate | src/main/java/com/nayabjalal/calculator/ui/CalculatorUI.java:98-123 | `first op second` for `+ - * % ^`, 0 for a division by zero, and `second` for any other operator |
| Keypad.CalculateAgreesWithEvaluator | src/main/java/com/nayabjalal/calculator/ui/CalculatorUI.java:98-123 | the keypad and the expression evaluator agree on every operator except division by zero |
| Keypad.NeverEmpty | src/main/java/com/nayabjalal/calculator/ui/CalculatorUI.java:208 | `formatResult` yields non-empty text |
| Keypad.IsEntry | src/main/java/com/nayabjalal/calculator/ui/CalculatorUI.java:189-201 | a display being typed: a digit first, then digits and at most one point |
| Keypad.CalculatorUI.Valid | src/main/java/com/nayabjalal/calculator/ui/CalculatorUI.java:68-71 | the display is never empty, `go` is cleared only with `addToDisplay`, and a display being extended is an entry |
| Keypad.EntryIsNumberUnlessTrailingPoint | src/main/java/com/nayabjalal/calculator/ui/CalculatorUI.java:204-207 | a display being typed is a valid number exactly when it does not end in `.`, and `parseDouble` then reads its decimal value |
| Keypad.EntryPrefix | src/main/java/com/nayabjalal/calculator/ui/CalculatorUI.java:330-332 | a non-empty prefix of a display being typed is one too |
| Keypad.CalculatorUI.constructor | src/main/java/com/nayabjalal/calculator/ui/CalculatorUI.java:68-233 | `"0"`, no pending operator, both flags set, a running value of 0 |
| Keypad.CalculatorUI.HandleNumberButtonClick | src/main/java/com/nayabjalal/calculator/ui/CalculatorUI.java:189-201 | the three digit cases, with `go` set in each, keeping the display non-empty |
| Keypad.CalculatorUI.HandleOperator | src/main/java/com/nayabjalal/calculator/ui/CalculatorUI.java:203-215 | no change for an invalid display; with `go`, fold, show, record the operator and clear both flags; without it, only replace the operator |
| Keypad.CalculatorUI.Clear | src/main/java/com/nayabjalal/calculator/ui/CalculatorUI.java:320-324 | `"0"`, no pending operator, a running value of 0, and the flags untouched |
| Keypad.CalculatorUI.Backspace | src/main/java/com/nayabjalal/calculator/ui/CalculatorUI.java:327-338 | the last character is dropped, and `"0"` is shown when nothing would remain |
| Keypad.CalculatorUI.Point | src/main/java/com/nayabjalal/calculator/ui/CalculatorUI.java:383-393 | a point is appended only when absent while extending; otherwise the display becomes `"0."`; `go` is set |
| Keypad.CalculatorUI.Equals | src/main/java/com/nayabjalal/calculator/ui/CalculatorUI.java:399-409 | only with a valid display and `go`: fold, show, pend `=` and stop extending, leaving `go` set |

## Left out

- **Swing.** This covers window layout, theming, keyboard-to-button dispatch, the calculator-type selector, and the history and advanced dialogs (src/main/java/com/nayabjalal/calculator/ui/CalculatorUI.java:75-96, 125-187, 217-316, 463-538). The display is a string field.
- **The √ and ln keys.** They need `Math.sqrt` and `Math.log` on doubles (src/main/java/com/nayabjalal/calculator/ui/CalculatorUI.java:412-443).
- **Floating point.** Doubles are exact reals. `%` and `Math.pow` are uninterpreted fields of `FloatOps`. The rounding of `Double.parseDouble`, infinities and NaN are not modelled.
- **`formatResult`.** It is an uninterpreted parameter of the keypad that only promises non-empty text (src/main/java/com/nayabjalal/calculator/util/InputValidator.java:30-40).
- **Numbers with exponents or signs.** `Double.parseDouble` is modelled only on the digit-and-point tokens the evaluator hands it.
- **Settings file.** Reading and writing it as JSON are left out. The constructor takes the loaded tree (none means the defaults), and `set` does not write the file (src/main/java/com/nayabjalal/calculator/config/AppConfig.java:25-38, 70-77, 102).
- **Settings values.** They are integers, strings, booleans and maps. JSON null, lists and floating-point values are not modelled.
- **History file.** Reading and writing it as JSON are left out. The constructor takes the loaded list (none means empty), and `addCalculation` and `clearHistory` do not write the file (src/main/java/com/nayabjalal/calculator/history/CalculationHistory.java:58-69, 80, 83-89, 97).
- Configuration.SetPath, Configuration.AppConfig.Set: settings maps are values, not shared objects. In Java, `get` on a map-valued path returns the live map, and a later `set` through `computeIfAbsent` and `put` changes that map in place, so the caller sees the change. The model returns a copy, so aliasing through maps obtained earlier from `get` is not captured (src/main/java/com/nayabjalal/calculator/config/AppConfig.java:80-101).
- **Singletons.** The `getInstance` singletons are not modelled. The settings object is passed to `AddCalculation` explicitly.
- **Timestamps.** The timestamp is a parameter: `LocalDateTime.now()` reads the clock. `CalculationEntry.toString` only formats it for display (src/main/java/com/nayabjalal/calculator/history/CalculationHistory.java:29, 42).
- Errors.LocalizedMessage: returns the settings value it finds, or none, whatever its kind. In Java, `getLocalizedMessage` returns `String`, so the compiler inserts a cast to `String` on the result of the generic `get`. A non-text value under `errors.<segment>` therefore makes `getLocalizedMessage` itself throw `ClassCastException`. The model does not include that failure (src/main/java/com/nayabjalal/calculator/exception/CalculatorException.java:31-33, src/main/java/com/nayabjalal/calculator/config/AppConfig.java:79-91).
- Keypad.Calculate: on a division by zero it yields 0 and does not model the display write in the handler. In Java the handler calls `getLocalizedMessage` and writes its result to the display. When that call returns, which it does for null and for text, the caller overwrites the display at once with the formatted result, so the write has no lasting effect. When the settings hold a non-text value under the key, the `ClassCastException` is raised inside the `catch (CalculatorException e)` clause. The sibling `catch (Exception e)` does not catch it, so it escapes `calculate` and the caller's update of `typedValue` never happens. The model does not capture that escape (src/main/java/com/nayabjalal/calculator/ui/CalculatorUI.java:116-121). The generic handler is unreachable from the `try` body, since no other branch throws.
- **Character classes.** The model's digits are the ASCII digits `0`-`9`. This is exact for `\d` in InputValidator's patterns, which Java reads as ASCII by default. It is not exact for `Character.isDigit` in `evaluate` (src/main/java/com/nayabjalal/calculator/util/ExpressionEvaluator.java:35, 38), which accepts every Unicode decimal digit. Where Java puts such a digit into a number token, `Double.parseDouble` rejects it, and the expression fails with `EXPRESSION_PARSE_ERROR`. The model instead skips it as an ignored character. For example, on `"٣5"` (ARABIC-INDIC DIGIT THREE, then `5`) Java fails, while `Evaluation` yields 5. `toLowerCase` is ASCII only, with no locale rules.
- **Java `int` overflow.** It is modelled only in `getRecentHistory`. The history size and the settings integers are otherwise unbounded.
- **Concurrency.** None of the classes is thread-safe, and the model is sequential.
