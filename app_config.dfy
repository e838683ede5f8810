/**
 * The application settings: a tree of string-keyed maps addressed by dotted
 * paths such as "calculator.maxHistorySize". `get` walks down one map level
 * per key; `set` walks down creating missing levels and stores the value
 * under the last key. Reading and writing the JSON settings file is not part
 * of this model: the constructor takes the tree the file yielded, if any.
 */
module Configuration {
  import opened Wrappers
  import Numerals

  /** A settings value: a leaf (integer, text, flag) or a nested map. */
  datatype Value = Int(i: int) | Str(s: string) | Bool(b: bool) | Node(entries: map<string, Value>)

  type Tree = map<string, Value>

  /** Why `set` throws: no key at all (`keys[keys.length - 1]` on an empty array), or a non-map on the way down. */
  datatype SetFailure = IndexOutOfBounds | ClassCast(key: string)

  // ---------------------------------------------------------------------------
  // Dotted paths: `path.split("\\.")`
  // ---------------------------------------------------------------------------

  /** The pieces between the points of `s`, empty ones included: one more piece than there are points. */
  function SplitOnDots(s: string): (parts: seq<string>)
    ensures |parts| >= 1
    ensures forall k :: 0 <= k < |parts| ==> '.' !in parts[k]
    decreases |s|
  {
    var i := Numerals.DotIndex(s);
    if i == |s| then
      assert forall c :: c in s ==> c != '.' by {
        forall c | c in s ensures c != '.' {
          var k :| 0 <= k < |s| && s[k] == c;
        }
      }
      [s]
    else
      assert forall c :: c in s[..i] ==> c != '.' by {
        forall c | c in s[..i] ensures c != '.' {
          var k :| 0 <= k < i && s[..i][k] == c;
        }
      }
      [s[..i]] + SplitOnDots(s[i + 1..])
  }

  /** Java's `split` drops the empty strings at the end of its result. */
  function DropTrailingEmpty(parts: seq<string>): (r: seq<string>)
    ensures |r| <= |parts| && r == parts[..|r|]
    ensures r == [] || r[|r| - 1] != ""
    ensures forall k :: |r| <= k < |parts| ==> parts[k] == ""
  {
    if parts == [] || parts[|parts| - 1] != "" then parts else DropTrailingEmpty(parts[..|parts| - 1])
  }

  /**
   * `path.split("\\.")`: a path without points is its own single key (even
   * the empty path); otherwise the pieces between points, without the empty
   * pieces at the end ("a..b" gives "a", "", "b"; "a." gives "a"; "." gives none).
   */
  function SplitPath(path: string): (keys: seq<string>)
    ensures forall k :: 0 <= k < |keys| ==> '.' !in keys[k]
  {
    if '.' !in path then [path] else DropTrailingEmpty(SplitOnDots(path))
  }

  /** The dotted path that names `keys`. */
  function JoinPath(keys: seq<string>): string
    requires |keys| >= 1
  {
    if |keys| == 1 then keys[0] else keys[0] + "." + JoinPath(keys[1..])
  }

  /** A key that can be written in a dotted path: non-empty and without a point. */
  predicate IsPlainKey(key: string) {
    key != "" && '.' !in key
  }

  lemma {:induction false} SplitOnDotsJoin(keys: seq<string>)
    requires |keys| >= 1
    requires forall k :: 0 <= k < |keys| ==> '.' !in keys[k]
    ensures SplitOnDots(JoinPath(keys)) == keys
  {
    if |keys| > 1 {
      var tail := keys[1..];
      assert forall k :: 0 <= k < |tail| ==> tail[k] == keys[k + 1];
      SplitOnDotsJoin(tail);
      SplitAtFirstPoint(keys[0], JoinPath(tail));
      assert [keys[0]] + tail == keys;
    }
  }

  /** The dotted join has a point exactly when it joins two keys or more. */
  lemma JoinPathPoints(keys: seq<string>)
    requires |keys| >= 1 && '.' !in keys[0]
    ensures |keys| >= 2 ==> '.' in JoinPath(keys)
    ensures |keys| == 1 ==> '.' !in JoinPath(keys)
  {
    if |keys| >= 2 {
      SplitAtFirstPoint(keys[0], JoinPath(keys[1..]));
    }
  }

  /** A point-free key, a point, then anything: the first point is the one after the key. */
  lemma SplitAtFirstPoint(key: string, rest: string)
    requires '.' !in key
    ensures '.' in key + "." + rest
    ensures SplitOnDots(key + "." + rest) == [key] + SplitOnDots(rest)
  {
    var s := key + "." + rest;
    assert s[|key|] == '.';
    assert forall k :: 0 <= k < |key| ==> s[k] == key[k];
    assert Numerals.DotIndex(s) == |key|;
    assert s[..|key|] == key;
    assert s[|key| + 1..] == rest;
  }

  /** Splitting the dotted path written from plain keys gives back exactly those keys. */
  lemma SplitJoinRoundTrip(keys: seq<string>)
    requires |keys| >= 1
    requires forall k :: 0 <= k < |keys| ==> IsPlainKey(keys[k])
    ensures SplitPath(JoinPath(keys)) == keys
  {
    var path := JoinPath(keys);
    SplitOnDotsJoin(keys);
    JoinPathPoints(keys);
    assert keys[|keys| - 1] != "";
    assert DropTrailingEmpty(keys) == keys;
    if |keys| == 1 {
      assert path == keys[0];
    }
  }

  /** A path of two plain keys joined by a point splits into exactly those two keys. */
  lemma TwoKeyPath(a: string, b: string)
    requires IsPlainKey(a) && IsPlainKey(b)
    ensures SplitPath(a + "." + b) == [a, b]
  {
    var keys := [a, b];
    assert JoinPath(keys) == a + "." + b by {
      assert keys[1..] == [b];
    }
    SplitJoinRoundTrip(keys);
  }

  /** Sample paths: the empty path is one empty key, and a trailing empty key is dropped. */
  lemma SplitExamples()
    ensures SplitPath("") == [""]
    ensures SplitPath("a.") == ["a"]
  {
    assert Numerals.DotIndex("a.") == 1;
    assert "a."[..1] == "a" && "a."[2..] == "";
    assert SplitOnDots("") == [""];
    assert SplitOnDots("a.") == ["a", ""];
  }

  /** Sample path: "." has no key at all. */
  lemma SplitOnlyPoint()
    ensures SplitPath(".") == []
  {
    var parts := SplitOnDots(".");
    assert Numerals.DotIndex(".") == 0;
    assert "."[..0] == "" && "."[1..] == "";
    assert SplitOnDots("") == [""];
    assert parts == ["", ""];
    var one: seq<string> := [""];
    assert parts[..1] == one && one[..0] == [];
    assert DropTrailingEmpty(parts) == DropTrailingEmpty(one);
  }

  /** Sample path: "a..b" keeps the empty key between its two points. */
  lemma SplitDoublePoint()
    ensures SplitPath("a..b") == ["a", "", "b"]
  {
    var keys := ["a", "", "b"];
    assert JoinPath(keys) == "a..b" by {
      assert keys[1..] == ["", "b"] && keys[1..][1..] == ["b"];
    }
    SplitOnDotsJoin(keys);
    JoinPathPoints(keys);
  }

  // ---------------------------------------------------------------------------
  // get
  // ---------------------------------------------------------------------------

  /**
   * The walk of `get`: starting from `current`, each key looks one level
   * deeper while the current value is a map; a missing key gives null, and a
   * null or non-map value met with keys still left gives null.
   */
  function Lookup(current: Option<Value>, keys: seq<string>): Option<Value>
    decreases |keys|
  {
    if keys == [] then current
    else match current
      case Some(Node(m)) => Lookup(if keys[0] in m then Some(m[keys[0]]) else None, keys[1..])
      case _ => None
  }

  /** A leaf (non-map) value found at the end of a walk. */
  predicate IsLeaf(v: Option<Value>) {
    v.Some? && !v.value.Node?
  }

  /** Walking `p + q` is walking `p` and then walking `q` from where `p` ended. */
  lemma {:induction false} LookupAppend(current: Option<Value>, p: seq<string>, q: seq<string>)
    ensures Lookup(current, p + q) == Lookup(Lookup(current, p), q)
    decreases |p|
  {
    if p == [] {
      assert p + q == q;
    } else {
      assert (p + q)[0] == p[0];
      assert (p + q)[1..] == p[1..] + q;
      match current
      case Some(Node(m)) =>
        LookupAppend(if p[0] in m then Some(m[p[0]]) else None, p[1..], q);
      case _ =>
    }
  }

  /** From null or from a leaf, any further key gives null. */
  lemma LookupFromLeafOrNull(current: Option<Value>, q: seq<string>)
    requires current.None? || (IsLeaf(current) && q != [])
    ensures Lookup(current, q) == None
  {
  }

  /**
   * `get` returns null as soon as the walk meets null (a missing key) or a
   * non-map before the last key.
   */
  lemma GetStopsEarly(root: Option<Value>, keys: seq<string>, j: nat)
    requires j < |keys|
    requires Lookup(root, keys[..j]).None? || IsLeaf(Lookup(root, keys[..j]))
    ensures Lookup(root, keys) == None
  {
    assert keys == keys[..j] + keys[j..];
    LookupAppend(root, keys[..j], keys[j..]);
  }

  // ---------------------------------------------------------------------------
  // set
  // ---------------------------------------------------------------------------

  /**
   * `computeIfAbsent(key, k -> new HashMap<>())` followed by the cast to a map:
   * a missing key yields a new empty map, a map yields itself, anything else
   * is a `ClassCastException` (None).
   */
  function Child(m: Tree, key: string): Option<Tree> {
    if key !in m then Some(map[])
    else if m[key].Node? then Some(m[key].entries)
    else None
  }

  /**
   * The tree after `set(keys, value)`: every key but the last descends one
   * level (creating empty maps where keys are missing), and the last key is
   * bound to the value. Only the entry on the path changes at each level.
   */
  function SetPath(m: Tree, keys: seq<string>, value: Value): (r: Result<Tree, SetFailure>)
    ensures r.Success? ==> |keys| >= 1 && keys[0] in r.value
    ensures r.Success? ==> forall k :: k != keys[0] ==> (k in r.value <==> k in m)
    ensures r.Success? ==> forall k :: k != keys[0] && k in m ==> r.value[k] == m[k]
    decreases |keys|
  {
    if |keys| == 0 then Failure(IndexOutOfBounds)
    else if |keys| == 1 then Success(m[keys[0] := value])
    else match Child(m, keys[0])
      case None => Failure(ClassCast(keys[0]))
      case Some(c) =>
        match SetPath(c, keys[1..], value)
        case Failure(f) => Failure(f)
        case Success(c') => Success(m[keys[0] := Node(c')])
  }

  /** After a successful `set`, `get` on the same keys returns the value stored. */
  lemma {:induction false} GetAfterSet(m: Tree, keys: seq<string>, value: Value)
    requires SetPath(m, keys, value).Success?
    ensures Lookup(Some(Node(SetPath(m, keys, value).value)), keys) == Some(value)
    decreases |keys|
  {
    if |keys| > 1 {
      var c :| Child(m, keys[0]) == Some(c);
      GetAfterSet(c, keys[1..], value);
    }
  }

  /** The keys `q` leave the path `keys` at position `j`: they agree before `j` and differ at `j`. */
  predicate LeavesPathAt(q: seq<string>, keys: seq<string>, j: nat) {
    j < |q| && j < |keys| && q[..j] == keys[..j] && q[j] != keys[j]
  }

  /** A successful `set` leaves every value off its path as it was, at every level. */
  lemma {:induction false} SetLeavesOtherPathsAlone(m: Tree, keys: seq<string>, value: Value, q: seq<string>, j: nat)
    requires SetPath(m, keys, value).Success?
    requires LeavesPathAt(q, keys, j)
    ensures Lookup(Some(Node(SetPath(m, keys, value).value)), q) == Lookup(Some(Node(m)), q)
    decreases j
  {
    if j > 0 {
      var k := keys[0];
      assert q[0] == q[..j][0] == keys[..j][0] == k;
      var c :| Child(m, k) == Some(c);
      var c' := SetPath(c, keys[1..], value).value;
      assert q[1..][..j - 1] == q[..j][1..] && keys[1..][..j - 1] == keys[..j][1..];
      SetLeavesOtherPathsAlone(c, keys[1..], value, q[1..], j - 1);
      if k !in m {
        assert q[1..][0] !in c;
        LookupFromLeafOrNull(None, q[1..][1..]);
      }
    }
  }

  /** `set` on an empty map never fails when it is given at least one key. */
  lemma {:induction false} SetOnEmptySucceeds(keys: seq<string>, value: Value)
    requires |keys| >= 1
    ensures SetPath(map[], keys, value).Success?
    decreases |keys|
  {
    if |keys| > 1 {
      SetOnEmptySucceeds(keys[1..], value);
    }
  }

  /** Some key before the last one holds a non-map value. */
  ghost predicate Blocked(m: Tree, keys: seq<string>) {
    exists j :: 1 <= j < |keys| && IsLeaf(Lookup(Some(Node(m)), keys[..j]))
  }

  lemma BlockedOneLevelDown(m: Tree, keys: seq<string>)
    requires |keys| >= 2 && keys[0] in m && m[keys[0]].Node?
    ensures Blocked(m, keys) <==> Blocked(m[keys[0]].entries, keys[1..])
  {
    var c := m[keys[0]].entries;
    forall j | 2 <= j < |keys|
      ensures Lookup(Some(Node(m)), keys[..j]) == Lookup(Some(Node(c)), keys[1..][..j - 1])
    {
      assert keys[..j][0] == keys[0];
      assert keys[..j][1..] == keys[1..][..j - 1];
    }
    assert Lookup(Some(Node(m)), keys[..1]) == Some(Node(c)) by {
      assert keys[..1][1..] == [];
    }
    if Blocked(m, keys) {
      var j :| 1 <= j < |keys| && IsLeaf(Lookup(Some(Node(m)), keys[..j]));
      assert IsLeaf(Lookup(Some(Node(c)), keys[1..][..j - 1]));
    }
    if Blocked(c, keys[1..]) {
      var j :| 1 <= j < |keys[1..]| && IsLeaf(Lookup(Some(Node(c)), keys[1..][..j]));
      assert IsLeaf(Lookup(Some(Node(m)), keys[..j + 1]));
    }
  }

  lemma NotBlockedBelowMissingKey(m: Tree, keys: seq<string>)
    requires |keys| >= 2 && keys[0] !in m
    ensures !Blocked(m, keys)
  {
    forall j | 1 <= j < |keys|
      ensures Lookup(Some(Node(m)), keys[..j]) == None
    {
      assert keys[..j] == [keys[0]] + keys[..j][1..];
      LookupAppend(Some(Node(m)), [keys[0]], keys[..j][1..]);
    }
  }

  /**
   * `set` fails exactly when there is no key at all or when a key before the
   * last already holds a non-map value; missing keys never make it fail.
   */
  lemma {:induction false} SetFailsIffBlocked(m: Tree, keys: seq<string>, value: Value)
    ensures SetPath(m, keys, value).Failure? <==> keys == [] || Blocked(m, keys)
    decreases |keys|
  {
    if |keys| >= 2 {
      var k := keys[0];
      if k !in m {
        SetOnEmptySucceeds(keys[1..], value);
        NotBlockedBelowMissingKey(m, keys);
      } else if m[k].Node? {
        SetFailsIffBlocked(m[k].entries, keys[1..], value);
        BlockedOneLevelDown(m, keys);
      } else {
        assert keys[..1] == [k];
        assert IsLeaf(Lookup(Some(Node(m)), keys[..1]));
      }
    }
  }

  // ---------------------------------------------------------------------------
  // Defaults
  // ---------------------------------------------------------------------------

  /** The settings written when no settings file exists. */
  function DefaultConfig(): (config: Tree)
    ensures Lookup(Some(Node(config)), ["calculator", "maxHistorySize"]) == Some(Int(50))
    ensures Lookup(Some(Node(config)), ["calculator", "defaultTheme"]) == Some(Str("Light"))
    ensures Lookup(Some(Node(config)), ["calculator", "soundEnabled"]) == Some(Bool(true))
    ensures Lookup(Some(Node(config)), ["calculator", "animationsEnabled"]) == Some(Bool(true))
    ensures Lookup(Some(Node(config)), ["shortcuts"]) == Some(Node(map[
              "clear" := Str("C"), "equals" := Str("Enter"),
              "backspace" := Str("Backspace"), "square_root" := Str("R")]))
    ensures Lookup(Some(Node(config)), ["errors"]) == Some(Node(map[
              "divisionByZero" := Str("Cannot divide by zero"), "invalidInput" := Str("Invalid input"),
              "overflow" := Str("Number too large"), "underflow" := Str("Number too small")]))
    ensures config.Keys == {"calculator", "shortcuts", "errors"}
  {
    var calculator := map[
      "maxHistorySize" := Int(50),
      "defaultTheme" := Str("Light"),
      "soundEnabled" := Bool(true),
      "animationsEnabled" := Bool(true)];
    var shortcuts := map[
      "clear" := Str("C"),
      "equals" := Str("Enter"),
      "backspace" := Str("Backspace"),
      "square_root" := Str("R")];
    var errors := map[
      "divisionByZero" := Str("Cannot divide by zero"),
      "invalidInput" := Str("Invalid input"),
      "overflow" := Str("Number too large"),
      "underflow" := Str("Number too small")];
    map["calculator" := Node(calculator), "shortcuts" := Node(shortcuts), "errors" := Node(errors)]
  }

  // ---------------------------------------------------------------------------
  // The settings object
  // ---------------------------------------------------------------------------

  class AppConfig {
    var config: Tree

    /** Loading: the tree read from the settings file, or the defaults when there is none or it cannot be read. */
    constructor (loaded: Option<Tree>)
      ensures config == if loaded.Some? then loaded.value else DefaultConfig()
    {
      config := if loaded.Some? then loaded.value else DefaultConfig();
    }

    /** `get(path)`: the value at the dotted path, or null. */
    function Get(path: string): (r: Option<Value>)
      reads this
      ensures SplitPath(path) == [] ==> r == Some(Node(config))
      ensures SplitPath(path) != [] && SplitPath(path)[0] !in config ==> r.None?
      ensures |SplitPath(path)| == 1 && SplitPath(path)[0] in config ==> r == Some(config[SplitPath(path)[0]])
    {
      var keys := SplitPath(path);
      LookupFromLeafOrNull(None, if keys == [] then [] else keys[1..]);
      assert |keys| == 1 && keys[0] in config ==>
               keys[1..] == [] && Lookup(Some(Node(config)), keys) == Lookup(Some(config[keys[0]]), []);
      Lookup(Some(Node(config)), keys)
    }

    /**
     * `set(path, value)`: descends as `computeIfAbsent` does, remembering the
     * map reached at each level, then binds the last key and writes each
     * changed map back into its parent (which, with maps as values, is what
     * changing the nested maps in place amounts to). Writing the settings
     * file afterwards is not modelled.
     */
    method Set(path: string, value: Value) returns (r: Result<(), SetFailure>)
      modifies this
      ensures SetPath(old(config), SplitPath(path), value).Success? ==>
                r.Success? && config == SetPath(old(config), SplitPath(path), value).value
      ensures SetPath(old(config), SplitPath(path), value).Failure? ==>
                r == Failure(SetPath(old(config), SplitPath(path), value).error) && config == old(config)
    {
      var updated := SetInTree(config, SplitPath(path), value);
      if updated.Failure? {
        return Failure(updated.error);
      }
      config := updated.value;
      return Success(());
    }
  }

  /**
   * The work of `set` on the settings tree: descends as `computeIfAbsent`
   * does, remembering the map reached at each level, then binds the last key
   * and writes each changed map back into its parent (which, with maps as
   * values, is what changing the nested maps in place amounts to).
   */
  method SetInTree(root: Tree, keys: seq<string>, value: Value) returns (r: Result<Tree, SetFailure>)
    ensures r == SetPath(root, keys, value)
  {
    if |keys| == 0 {
      return Failure(IndexOutOfBounds);
    }
    // trail[i] is the map reached after descending through keys[..i]
    var trail := [root];
    var i := 0;
    while i < |keys| - 1
      invariant 0 <= i <= |keys| - 1
      invariant |trail| == i + 1
      invariant SetPath(root, keys, value) == Rewrap(trail[..i], keys, SetPath(trail[i], keys[i..], value))
    {
      var child := Child(trail[i], keys[i]);
      if child.None? {
        DescendBlocked(trail[..i], trail[i], keys, value);
        return Failure(ClassCast(keys[i]));
      }
      ExtendTrail(trail, child.value, keys, value);
      trail := trail + [child.value];
      i := i + 1;
    }
    SetLastKey(trail[i], keys, value);
    var m := trail[i][keys[i] := value];
    while i > 0
      invariant 0 <= i <= |keys| - 1 && |trail| == |keys|
      invariant SetPath(root, keys, value) == Rewrap(trail[..i], keys, Success(m))
    {
      RewrapStep(trail[..i], keys, m);
      assert trail[..i][..i - 1] == trail[..i - 1];
      i := i - 1;
      m := trail[i][keys[i] := Node(m)];
    }
    return Success(m);
  }

  lemma DescendOneLevel(parents: seq<Tree>, t: Tree, c: Tree, keys: seq<string>, value: Value)
    requires |parents| + 1 < |keys|
    requires Child(t, keys[|parents|]) == Some(c)
    ensures Rewrap(parents, keys, SetPath(t, keys[|parents|..], value))
         == Rewrap(parents + [t], keys, SetPath(c, keys[|parents| + 1..], value))
  {
    var i := |parents|;
    assert keys[i..][0] == keys[i] && keys[i..][1..] == keys[i + 1..];
    assert (parents + [t])[..i] == parents;
  }

  /** One level deeper: the trail of maps grows by the child reached. */
  lemma ExtendTrail(trail: seq<Tree>, c: Tree, keys: seq<string>, value: Value)
    requires 1 <= |trail| < |keys|
    requires Child(trail[|trail| - 1], keys[|trail| - 1]) == Some(c)
    ensures var i := |trail| - 1;
            Rewrap(trail[..i], keys, SetPath(trail[i], keys[i..], value)) ==
            Rewrap((trail + [c])[..i + 1], keys, SetPath((trail + [c])[i + 1], keys[i + 1..], value))
  {
    var i := |trail| - 1;
    DescendOneLevel(trail[..i], trail[i], c, keys, value);
    assert (trail + [c])[..i + 1] == trail[..i] + [trail[i]];
  }

  lemma SetLastKey(t: Tree, keys: seq<string>, value: Value)
    requires |keys| >= 1
    ensures SetPath(t, keys[|keys| - 1..], value) == Success(t[keys[|keys| - 1] := value])
  {
    assert keys[|keys| - 1..] == [keys[|keys| - 1]];
  }

  lemma RewrapStep(parents: seq<Tree>, keys: seq<string>, m: Tree)
    requires 1 <= |parents| <= |keys|
    ensures Rewrap(parents, keys, Success(m)) ==
            Rewrap(parents[..|parents| - 1], keys, Success(parents[|parents| - 1][keys[|parents| - 1] := Node(m)]))
  {
  }

  lemma DescendBlocked(parents: seq<Tree>, t: Tree, keys: seq<string>, value: Value)
    requires |parents| + 1 < |keys|
    requires Child(t, keys[|parents|]).None?
    ensures Rewrap(parents, keys, SetPath(t, keys[|parents|..], value)) == Failure(ClassCast(keys[|parents|]))
  {
    var i := |parents|;
    assert keys[i..][0] == keys[i];
  }

  /**
   * Re-applies, from the deepest level up, the parent updates that `set`
   * makes along `parents` (the maps above the current level): a failure below
   * is a failure of the whole `set`.
   */
  ghost function Rewrap(parents: seq<Tree>, keys: seq<string>, inner: Result<Tree, SetFailure>): Result<Tree, SetFailure>
    requires |parents| <= |keys|
    decreases |parents|
  {
    if inner.Failure? || parents == [] then inner
    else
      var n := |parents| - 1;
      Rewrap(parents[..n], keys, Success(parents[n][keys[n] := Node(inner.value)]))
  }
}
