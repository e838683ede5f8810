/**
 * The in-memory calculation history: a list of entries, appended to at the
 * end, trimmed by one entry from the front when it exceeds the configured
 * limit, and viewed whole or as its most recent entries. Reading and writing
 * the history file are not modelled; the list the file yields is a
 * constructor parameter.
 */
module History {
  import opened Wrappers
  import Configuration

  /** One calculation; the timestamp is text supplied by the caller. */
  datatype CalculationEntry = CalculationEntry(expression: string, result: string, timestamp: string)

  /** What the history operations throw. */
  datatype HistoryError =
    | ClassCastException        // the configured limit is not an integer
    | IllegalArgumentException  // `subList` with its start past its end

  const MinInt32: int := -0x8000_0000
  const MaxInt32: int := 0x7fff_ffff

  predicate IsInt32(x: int) {
    MinInt32 <= x <= MaxInt32
  }

  /** Java `int` arithmetic: `x` reduced into the 32-bit two's-complement range. */
  function Wrap32(x: int): (r: int)
    ensures IsInt32(r)
    ensures IsInt32(x) ==> r == x
  {
    (x - MinInt32) % 0x1_0000_0000 + MinInt32
  }

  /** The settings path of the limit. */
  const MaxSizePath: string := "calculator.maxHistorySize"

  /**
   * The limit as `addCalculation` reads it into an `Integer`: none when the
   * setting is absent, the number when it is an integer, and a
   * `ClassCastException` for any other kind of value.
   */
  function MaxSize(setting: Option<Configuration.Value>): (r: Result<Option<int>, HistoryError>)
    ensures setting.None? ==> r == Success(None)
    ensures r.Success? && r.value.Some? ==> setting == Some(Configuration.Int(r.value.value))
    ensures r.Failure? <==> setting.Some? && !setting.value.Int?
  {
    match setting
    case None => Success(None)
    case Some(Int(m)) => Success(Some(m))
    case Some(_) => Failure(ClassCastException)
  }

  /**
   * The list after appending `e` and, when a limit is set and now exceeded,
   * dropping the oldest entry. Earlier entries keep their order, the new entry
   * is last unless the limit is below one, a list within the limit stays
   * within it, and a list already over it does not grow.
   */
  function AfterAdd(h: seq<CalculationEntry>, e: CalculationEntry, maxSize: Option<int>): (r: seq<CalculationEntry>)
    ensures r == h + [e] || r == (h + [e])[1..]
    ensures |r| >= |h|
    ensures r != [] ==> r[|r| - 1] == e
    ensures maxSize.None? ==> r == h + [e]
    ensures maxSize.Some? && 0 <= |h| <= maxSize.value ==> |r| <= maxSize.value
    ensures maxSize.Some? && |h| >= maxSize.value ==> |r| == |h|
    ensures maxSize.Some? && maxSize.value >= 1 ==> r != [] && r[|r| - 1] == e
    ensures maxSize.Some? && |h| + 1 <= maxSize.value ==> r == h + [e]
    ensures maxSize.Some? && |h| + 1 > maxSize.value ==> r == (h + [e])[1..]
  {
    var added := h + [e];
    if maxSize.Some? && |added| > maxSize.value then added[1..] else added
  }

  /**
   * `getRecentHistory(count)`: the entries from `max(0, size - count)` on,
   * with `size - count` computed in 32-bit arithmetic. For a count of zero or
   * more this is the last `min(count, size)` entries; a negative count puts
   * the start past the end and `subList` throws, unless the subtraction
   * overflows and wraps to a negative start, which gives the whole list.
   */
  function Recent(h: seq<CalculationEntry>, count: int): (r: Result<seq<CalculationEntry>, HistoryError>)
    requires IsInt32(count) && |h| <= MaxInt32
    ensures count >= 0 ==> r.Success? && r.value == h[|h| - (if count < |h| then count else |h|)..]
    ensures count >= 0 ==> |r.value| == (if count < |h| then count else |h|)
    ensures count < 0 && |h| - count <= MaxInt32 ==> r == Failure(IllegalArgumentException)
    ensures |h| - count > MaxInt32 ==> r == Success(h)
  {
    var start := Wrap32(|h| - count);
    var from := if start < 0 then 0 else start;
    if from > |h| then Failure(IllegalArgumentException) else Success(h[from..])
  }

  class CalculationHistory {
    var history: seq<CalculationEntry>

    /** Loading: the entries read from the history file, or an empty list when there is none or it cannot be read. */
    constructor (loaded: Option<seq<CalculationEntry>>)
      ensures history == if loaded.Some? then loaded.value else []
    {
      history := if loaded.Some? then loaded.value else [];
    }

    /**
     * `addCalculation`: appends the entry, then reads the limit from the
     * settings and removes the entry at index 0 if the list exceeds it. A
     * limit that is not an integer throws after the entry has been appended.
     * Saving the history file is not modelled.
     */
    method AddCalculation(expression: string, result: string, timestamp: string, settings: Configuration.AppConfig)
      returns (r: Result<(), HistoryError>)
      modifies this
      ensures var entry := CalculationEntry(expression, result, timestamp);
              match MaxSize(settings.Get(MaxSizePath))
              case Success(maxSize) => r.Success? && history == AfterAdd(old(history), entry, maxSize)
              case Failure(e) => r == Failure(e) && history == old(history) + [entry]
    {
      history := history + [CalculationEntry(expression, result, timestamp)];
      var maxSize := MaxSize(settings.Get(MaxSizePath));
      if maxSize.Failure? {
        return Failure(maxSize.error);
      }
      if maxSize.value.Some? && |history| > maxSize.value.value {
        history := history[1..];
      }
      return Success(());
    }

    /** `getHistory`: a copy of the list; the copy is a value, so later changes to either leave the other alone. */
    method GetHistory() returns (copy: seq<CalculationEntry>)
      ensures copy == history
    {
      copy := history;
    }

    /** `clearHistory`: the list becomes empty. Saving the history file is not modelled. */
    method ClearHistory()
      modifies this
      ensures history == []
    {
      history := [];
    }

    /** `getRecentHistory(count)`: the recent entries, leaving the list as it is. */
    method GetRecentHistory(count: int) returns (r: Result<seq<CalculationEntry>, HistoryError>)
      requires IsInt32(count) && |history| <= MaxInt32
      ensures r == Recent(history, count)
    {
      var start := Wrap32(|history| - count);
      if start < 0 {
        start := 0;
      }
      if start > |history| {
        return Failure(IllegalArgumentException);
      }
      return Success(history[start..]);
    }
  }

  /** The default settings set the limit to 50. */
  lemma DefaultLimit()
    ensures Configuration.SplitPath(MaxSizePath) == ["calculator", "maxHistorySize"]
    ensures MaxSize(Configuration.Lookup(Some(Configuration.Node(Configuration.DefaultConfig())),
                                         Configuration.SplitPath(MaxSizePath))) == Success(Some(50))
  {
    MaxSizePathText();
    Configuration.TwoKeyPath("calculator", "maxHistorySize");
  }

  // A string identity kept in a lemma of its own so that the proofs using it stay fast; it models nothing.
  lemma MaxSizePathText()
    ensures MaxSizePath == "calculator" + "." + "maxHistorySize"
    ensures Configuration.IsPlainKey("calculator") && Configuration.IsPlainKey("maxHistorySize")
  {
  }

  /**
   * Repeated additions under a fixed limit of at least one keep a history
   * within the limit inside it, and the newest entry is always the one just
   * added: `getRecentHistory(1)` returns it.
   */
  lemma {:induction false} AddsStayBounded(h: seq<CalculationEntry>, es: seq<CalculationEntry>, m: int)
    requires 1 <= m <= MaxInt32 && |h| <= m
    ensures |AddAll(h, es, m)| <= m
    ensures es != [] ==> Recent(AddAll(h, es, m), 1) == Success([es[|es| - 1]])
    decreases |es|
  {
    if es != [] {
      var before := AddAll(h, es[..|es| - 1], m);
      AddsStayBounded(h, es[..|es| - 1], m);
      var after := AfterAdd(before, es[|es| - 1], Some(m));
      assert after[|after| - 1..] == [es[|es| - 1]];
    }
  }

  /** The history after adding each of `es` in turn under the limit `m`. */
  function AddAll(h: seq<CalculationEntry>, es: seq<CalculationEntry>, m: int): seq<CalculationEntry>
    decreases |es|
  {
    if es == [] then h else AfterAdd(AddAll(h, es[..|es| - 1], m), es[|es| - 1], Some(m))
  }

  /** Without a limit, additions only append: the history is the old one followed by the new entries in order. */
  lemma {:induction false} UnlimitedAddsAppend(h: seq<CalculationEntry>, es: seq<CalculationEntry>)
    ensures AddAllUnlimited(h, es) == h + es
    decreases |es|
  {
    if es != [] {
      UnlimitedAddsAppend(h, es[..|es| - 1]);
      assert h + es == (h + es[..|es| - 1]) + [es[|es| - 1]];
    }
  }

  /** The history after adding each of `es` in turn with no limit set. */
  function AddAllUnlimited(h: seq<CalculationEntry>, es: seq<CalculationEntry>): seq<CalculationEntry>
    decreases |es|
  {
    if es == [] then h else AfterAdd(AddAllUnlimited(h, es[..|es| - 1]), es[|es| - 1], None)
  }
}
