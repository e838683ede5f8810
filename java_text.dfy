/**
 * The few `java.lang.String` operations the calculator relies on, restricted
 * to what the calculator needs: `trim`, `replaceAll("\\s+", "")`, ASCII
 * `toLowerCase` and `replace` of one character by nothing.
 */
module JavaText {

  /** A character that `String.trim` removes from either end: code point U+0020 or below. */
  predicate IsTrimmable(c: char) {
    c <= ' '
  }

  /** A character matched by the regular-expression class `\s`: `[ \t\n\x0B\f\r]`. */
  predicate IsWhitespace(c: char) {
    c == ' ' || c == '\t' || c == '\n' || c == '\U{000B}' || c == '\U{000C}' || c == '\r'
  }

  /** Every whitespace character is also removed by `trim`. */
  lemma WhitespaceIsTrimmable(c: char)
    requires IsWhitespace(c)
    ensures IsTrimmable(c)
  {
  }

  predicate AllTrimmable(s: string) {
    forall k :: 0 <= k < |s| ==> IsTrimmable(s[k])
  }

  /** `s` without its leading trimmable characters. */
  function TrimStart(s: string): string {
    if s == [] || !IsTrimmable(s[0]) then s else TrimStart(s[1..])
  }

  /** `s` without its trailing trimmable characters. */
  function TrimEnd(s: string): string {
    if s == [] || !IsTrimmable(s[|s| - 1]) then s else TrimEnd(s[..|s| - 1])
  }

  /** The number of leading trimmable characters of `s`. */
  function LeadingRun(s: string): (n: nat)
    ensures n <= |s|
  {
    if s == [] || !IsTrimmable(s[0]) then 0 else 1 + LeadingRun(s[1..])
  }

  /**
   * Trimming the front removes exactly the leading run of trimmable
   * characters: what is left starts with a character `trim` keeps, or is
   * empty, and everything removed is trimmable.
   */
  lemma {:induction false} TrimStartDropsLeadingRun(s: string)
    ensures TrimStart(s) == s[LeadingRun(s)..]
    ensures AllTrimmable(s[..LeadingRun(s)])
    ensures LeadingRun(s) < |s| ==> !IsTrimmable(s[LeadingRun(s)])
  {
    if s != [] && IsTrimmable(s[0]) {
      var tail := s[1..];
      var m := LeadingRun(tail);
      TrimStartDropsLeadingRun(tail);
      assert tail[m..] == s[m + 1..];
      assert m < |tail| ==> tail[m] == s[m + 1];
      assert s[..m + 1] == [s[0]] + tail[..m];
      LeadingTrimmable(s[0], tail[..m]);
    }
  }

  lemma LeadingTrimmable(c: char, rest: string)
    requires IsTrimmable(c) && AllTrimmable(rest)
    ensures AllTrimmable([c] + rest)
  {
    var u := [c] + rest;
    forall k | 0 <= k < |u| ensures IsTrimmable(u[k]) {
      if k > 0 {
        assert u[k] == rest[k - 1];
      }
    }
  }

  /**
   * Trimming the back removes exactly the trailing run of trimmable
   * characters: what is left is a prefix that is empty or ends with a
   * character `trim` keeps, and everything removed is trimmable.
   */
  lemma {:induction false} TrimEndDropsTrailingRun(s: string)
    ensures |TrimEnd(s)| <= |s| && TrimEnd(s) == s[..|TrimEnd(s)|]
    ensures AllTrimmable(s[|TrimEnd(s)|..])
    ensures TrimEnd(s) == [] || !IsTrimmable(TrimEnd(s)[|TrimEnd(s)| - 1])
  {
    if s != [] && IsTrimmable(s[|s| - 1]) {
      var p := s[..|s| - 1];
      var r := TrimEnd(p);
      assert TrimEnd(s) == r;
      TrimEndDropsTrailingRun(p);
      assert p[..|r|] == s[..|r|];
      var post, post1 := s[|r|..], p[|r|..];
      forall k | 0 <= k < |post| ensures IsTrimmable(post[k]) {
        if k < |post1| {
          assert post[k] == post1[k];
        }
      }
    }
  }

  /** `String.trim`. */
  function Trim(s: string): string {
    TrimEnd(TrimStart(s))
  }

  /** `s.trim().isEmpty()`. */
  predicate IsBlank(s: string) {
    Trim(s) == []
  }

  /** A string is blank exactly when every character of it is trimmable. */
  lemma BlankIffAllTrimmable(s: string)
    ensures IsBlank(s) <==> AllTrimmable(s)
  {
    var t := TrimStart(s);
    var n := LeadingRun(s);
    TrimStartDropsLeadingRun(s);
    TrimEndDropsTrailingRun(t);
    if !AllTrimmable(s) {
      var k :| 0 <= k < |s| && !IsTrimmable(s[k]);
      assert t[k - n] == s[k];
    }
  }

  lemma {:induction false} TrimStartSkipsPrefix(pre: string, s: string)
    requires AllTrimmable(pre)
    ensures TrimStart(pre + s) == TrimStart(s)
  {
    if pre != [] {
      assert (pre + s)[1..] == pre[1..] + s;
      TrimStartSkipsPrefix(pre[1..], s);
    } else {
      assert pre + s == s;
    }
  }

  lemma {:induction false} TrimEndSkipsSuffix(s: string, post: string)
    requires AllTrimmable(post)
    ensures TrimEnd(s + post) == TrimEnd(s)
  {
    if post != [] {
      assert (s + post)[..|s + post| - 1] == s + post[..|post| - 1];
      TrimEndSkipsSuffix(s, post[..|post| - 1]);
    } else {
      assert s + post == s;
    }
  }

  /** Once the leading trimmable characters are gone, trailing padding no longer reaches them. */
  lemma {:induction false} TrimStartKeepsSuffix(s: string, post: string)
    requires AllTrimmable(post)
    ensures TrimStart(s + post) == TrimStart(s) + post || (TrimStart(s) == [] && TrimStart(s + post) == [])
  {
    if s == [] {
      TrimStartSkipsPrefix(post, []);
      assert post + [] == post && s + post == post;
    } else if !IsTrimmable(s[0]) {
      assert (s + post)[0] == s[0];
    } else {
      assert (s + post)[1..] == s[1..] + post;
      TrimStartKeepsSuffix(s[1..], post);
    }
  }

  /** `trim` ignores any trimmable padding on either side. */
  lemma TrimIgnoresPadding(pre: string, s: string, post: string)
    requires AllTrimmable(pre) && AllTrimmable(post)
    ensures Trim(pre + s + post) == Trim(s)
  {
    assert pre + s + post == pre + (s + post);
    TrimStartSkipsPrefix(pre, s + post);
    TrimStartKeepsSuffix(s, post);
    if TrimStart(s + post) == TrimStart(s) + post {
      TrimEndSkipsSuffix(TrimStart(s), post);
    }
  }

  /** `replaceAll("\\s+", "")`: every whitespace character removed, the others kept in order. */
  function StripWhitespace(s: string): (r: string)
    ensures |r| <= |s|
    ensures forall k :: 0 <= k < |r| ==> !IsWhitespace(r[k])
  {
    if s == [] then []
    else if IsWhitespace(s[0]) then StripWhitespace(s[1..])
    else [s[0]] + StripWhitespace(s[1..])
  }

  lemma {:induction false} StripWhitespaceAppend(a: string, b: string)
    ensures StripWhitespace(a + b) == StripWhitespace(a) + StripWhitespace(b)
  {
    if a != [] {
      assert (a + b)[1..] == a[1..] + b;
      StripWhitespaceAppend(a[1..], b);
    } else {
      assert a + b == b;
    }
  }

  /** A string with no whitespace is left as it is, so stripping twice is stripping once. */
  lemma {:induction false} StripWhitespaceFixes(s: string)
    requires forall k :: 0 <= k < |s| ==> !IsWhitespace(s[k])
    ensures StripWhitespace(s) == s
  {
    if s != [] {
      StripWhitespaceFixes(s[1..]);
    }
  }

  /** Removing whitespace never changes whether a string is blank. */
  lemma {:induction false} StripWhitespaceKeepsBlankness(s: string)
    ensures AllTrimmable(StripWhitespace(s)) <==> AllTrimmable(s)
  {
    if s != [] {
      StripWhitespaceKeepsBlankness(s[1..]);
      assert AllTrimmable(s) <==> IsTrimmable(s[0]) && AllTrimmable(s[1..]) by {
        assert forall k :: 1 <= k < |s| ==> s[k] == s[1..][k - 1];
      }
      if IsWhitespace(s[0]) {
        WhitespaceIsTrimmable(s[0]);
      } else {
        var t := StripWhitespace(s[1..]);
        var u := [s[0]] + t;
        assert StripWhitespace(s) == u;
        assert AllTrimmable(u) <==> IsTrimmable(s[0]) && AllTrimmable(t) by {
          assert u[0] == s[0];
          assert forall k :: 0 <= k < |t| ==> t[k] == u[k + 1];
          if IsTrimmable(s[0]) && AllTrimmable(t) {
            forall k | 0 <= k < |u| ensures IsTrimmable(u[k]) {
              if k > 0 { assert u[k] == t[k - 1]; }
            }
          }
        }
      }
    }
  }

  predicate IsUpper(c: char) {
    'A' <= c <= 'Z'
  }

  function LowerChar(c: char): (d: char)
    ensures !IsUpper(d)
    ensures !IsUpper(c) ==> d == c
    ensures IsUpper(c) ==> d as int == c as int - 'A' as int + 'a' as int
  {
    if IsUpper(c) then (c as int - 'A' as int + 'a' as int) as char else c
  }

  /** `toLowerCase` on ASCII text: each upper-case letter replaced by its lower-case form. */
  function ToLowerAscii(s: string): (r: string)
    ensures |r| == |s|
    ensures forall k :: 0 <= k < |s| ==> r[k] == LowerChar(s[k])
  {
    seq(|s|, k requires 0 <= k < |s| => LowerChar(s[k]))
  }

  /** `s.replace(x, "")` for a one-character `x`: every occurrence of `x` removed, the rest kept in order. */
  function RemoveAll(s: string, x: char): (r: string)
    ensures |r| <= |s|
    ensures x !in r
    ensures x !in s ==> r == s
  {
    if s == [] then []
    else
      var last := s[|s| - 1];
      RemoveAll(s[..|s| - 1], x) + (if last == x then [] else [last])
  }

  /** Removing a character adds no new ones: every character left was already in `s`. */
  lemma {:induction false} RemoveAllKeeps(s: string, x: char)
    ensures forall c :: c in RemoveAll(s, x) ==> c in s
  {
    if s != [] {
      RemoveAllKeeps(s[..|s| - 1], x);
    }
  }

  lemma {:induction false} RemoveAllAppend(a: string, b: string, x: char)
    ensures RemoveAll(a + b, x) == RemoveAll(a, x) + RemoveAll(b, x)
  {
    if b == [] {
      assert a + b == a;
    } else {
      assert (a + b)[..|a + b| - 1] == a + b[..|b| - 1];
      RemoveAllAppend(a, b[..|b| - 1], x);
    }
  }
}
