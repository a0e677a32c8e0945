/**
 * The subset of System.String the modelled code relies on, with ordinal
 * (char-by-char) comparison. Case-insensitive comparison folds ASCII letters
 * only, and whitespace is the set char.IsWhiteSpace accepts (the Unicode
 * space separators, line and paragraph separators, and U+0009 to U+000D,
 * U+0085 and U+00A0).
 */
module Text {

  predicate StartsWith(s: string, prefix: string) {
    |prefix| <= |s| && s[..|prefix|] == prefix
  }

  predicate EndsWith(s: string, suffix: string) {
    |suffix| <= |s| && s[|s| - |suffix|..] == suffix
  }

  predicate NoDuplicates<T(==)>(s: seq<T>) {
    forall i, j :: 0 <= i < j < |s| ==> s[i] != s[j]
  }

  lemma StartsWithConcat(a: string, b: string)
    ensures StartsWith(a + b, a)
  {
    assert (a + b)[..|a|] == a;
  }

  lemma EndsWithConcat(a: string, b: string, c: string)
    ensures EndsWith(a + (b + c), c)
  {
    assert (a + (b + c))[|a| + |b|..] == c;
  }

  lemma StartsWithSplit(s: string, prefix: string)
    requires StartsWith(s, prefix)
    ensures s == prefix + s[|prefix|..]
  {
  }

  /** String.IndexOf for a single character: -1 when absent. */
  function IndexOf(s: string, c: char): (i: int)
    ensures -1 <= i < |s|
    ensures i == -1 <==> c !in s
    ensures 0 <= i ==> s[i] == c && c !in s[..i]
  {
    if |s| == 0 then -1
    else if s[0] == c then 0
    else
      var j := IndexOf(s[1..], c);
      if j < 0 then -1
      else
        assert s[..j + 1] == [s[0]] + s[1..][..j];
        j + 1
  }

  /** The first separator of `a + [c] + b` is the one joining them when `a` has none. */
  lemma IndexOfJoin(a: string, c: char, b: string)
    requires c !in a
    ensures IndexOf(a + [c] + b, c) == |a|
  {
    var s := a + [c] + b;
    var i := IndexOf(s, c);
    assert s[|a|] == c;
    assert forall k | 0 <= k < |a| :: s[k] == a[k];
    var j := if i > |a| then i else |s|;
    assert s[..j][|a|] == c;
  }

  /** String.LastIndexOf for a single character: -1 when absent. */
  function LastIndexOf(s: string, c: char): (i: int)
    ensures -1 <= i < |s|
    ensures i == -1 <==> c !in s
    ensures 0 <= i ==> s[i] == c && c !in s[i + 1..]
  {
    if |s| == 0 then -1
    else if s[|s| - 1] == c then |s| - 1
    else
      var j := LastIndexOf(s[..|s| - 1], c);
      assert s[j + 1..] == s[..|s| - 1][j + 1..] + [s[|s| - 1]];
      j
  }

  lemma InTail<T>(s: seq<T>, from: int, k: int)
    ensures 0 <= from <= k < |s| ==> s[k] in s[from..]
  {
    if 0 <= from <= k < |s| {
      assert s[from..][k - from] == s[k];
    }
  }

  /** The last separator of `a + [c] + b` is the one joining them when `b` has none. */
  lemma LastIndexOfJoin(a: string, c: char, b: string)
    requires c !in b
    ensures LastIndexOf(a + [c] + b, c) == |a|
  {
    var s := a + [c] + b;
    var i := LastIndexOf(s, c);
    assert s[|a|] == c && s[|a| + 1..] == b;
    InTail(s, i + 1, |a|);
    InTail(s, |a| + 1, i);
  }

  /**
   * String.Replace(pattern, replacement): every non-overlapping occurrence,
   * scanning left to right, is replaced. .NET rejects an empty pattern.
   */
  function ReplaceAll(s: string, pattern: string, replacement: string): (r: string)
    requires |pattern| > 0
    ensures forall k :: 0 <= k < |r| ==> r[k] in s || r[k] in replacement
    ensures |pattern| == 1 && pattern[0] !in replacement ==> pattern[0] !in r
    decreases |s|
  {
    if |s| < |pattern| then s
    else if s[..|pattern|] == pattern then
      var rest := ReplaceAll(s[|pattern|..], pattern, replacement);
      assert forall k :: 0 <= k < |rest| ==> rest[k] in s || rest[k] in replacement by {
        forall k | 0 <= k < |rest| && rest[k] in s[|pattern|..] ensures rest[k] in s {
          var m :| 0 <= m < |s[|pattern|..]| && s[|pattern|..][m] == rest[k];
          assert s[|pattern| + m] == rest[k];
        }
      }
      replacement + rest
    else
      var rest := ReplaceAll(s[1..], pattern, replacement);
      assert forall k :: 0 <= k < |rest| ==> rest[k] in s || rest[k] in replacement by {
        forall k | 0 <= k < |rest| && rest[k] in s[1..] ensures rest[k] in s {
          var m :| 0 <= m < |s[1..]| && s[1..][m] == rest[k];
          assert s[1 + m] == rest[k];
        }
      }
      assert |pattern| == 1 ==> s[0] != pattern[0] by {
        if |pattern| == 1 { assert s[..1] == [s[0]]; }
      }
      [s[0]] + rest
  }

  /** A string that does not contain the pattern's only character is left as it is. */
  lemma {:induction false} ReplaceAbsentChar(s: string, c: char, replacement: string)
    requires c !in s
    ensures ReplaceAll(s, [c], replacement) == s
    decreases |s|
  {
    if |s| > 0 {
      assert s[..1] == [s[0]];
      ReplaceAbsentChar(s[1..], c, replacement);
    }
  }

  /** Replacing a single character commutes with concatenation. */
  lemma {:induction false} ReplaceCharConcat(a: string, b: string, c: char, replacement: string)
    ensures ReplaceAll(a + b, [c], replacement)
         == ReplaceAll(a, [c], replacement) + ReplaceAll(b, [c], replacement)
    decreases |a|
  {
    if |a| == 0 {
      assert a + b == b;
    } else {
      assert (a + b)[..1] == a[..1] == [a[0]];
      assert (a + b)[1..] == a[1..] + b;
      ReplaceCharConcat(a[1..], b, c, replacement);
    }
  }

  /** Deleting a separator character after a piece free of it keeps the piece. */
  lemma DropSeparator(h: string, rest: string, c: char)
    requires c !in h
    ensures ReplaceAll(h + [c] + rest, [c], "") == h + ReplaceAll(rest, [c], "")
  {
    var head := ReplaceAll(h + [c], [c], "");
    assert head == h by {
      ReplaceCharConcat(h, [c], c, "");
      ReplaceAbsentChar(h, c, "");
      ReplaceOnlyChar(c);
      assert h + "" == h;
    }
    ReplaceCharConcat(h + [c], rest, c, "");
  }

  lemma ReplaceOnlyChar(c: char)
    ensures ReplaceAll([c], [c], "") == ""
  {
    assert [c][..1] == [c] && [c][1..] == [];
  }

  /** A replaced string keeps the replacement in front when the pattern leads it. */
  lemma ReplaceAllLeading(s: string, pattern: string, replacement: string)
    requires |pattern| > 0 && StartsWith(s, pattern)
    ensures StartsWith(ReplaceAll(s, pattern, replacement), replacement)
  {
    StartsWithConcat(replacement, ReplaceAll(s[|pattern|..], pattern, replacement));
  }

  // ---- Trim('_') -------------------------------------------------------------

  function TrimStartChar(s: string, c: char): (r: string)
    ensures |r| <= |s| && r == s[|s| - |r|..]
    ensures r == [] || r[0] != c
    ensures forall k :: 0 <= k < |s| - |r| ==> s[k] == c
  {
    if |s| > 0 && s[0] == c then TrimStartChar(s[1..], c) else s
  }

  function TrimEndChar(s: string, c: char): (r: string)
    ensures |r| <= |s| && r == s[..|r|]
    ensures r == [] || r[|r| - 1] != c
    ensures forall k :: |r| <= k < |s| ==> s[k] == c
  {
    if |s| > 0 && s[|s| - 1] == c then TrimEndChar(s[..|s| - 1], c) else s
  }

  /** String.Trim(c): removes every leading and trailing occurrence of `c`. */
  function TrimChar(s: string, c: char): (r: string)
    ensures r == [] || (r[0] != c && r[|r| - 1] != c)
    ensures forall x :: x in r ==> x in s
  {
    var t := TrimStartChar(s, c);
    var r := TrimEndChar(t, c);
    assert r == [] || r[0] == t[0];
    assert forall k :: 0 <= k < |r| ==> r[k] == s[|s| - |t| + k];
    r
  }

  // ---- whitespace ------------------------------------------------------------

  /**
   * char.IsWhiteSpace: the Unicode space, line and paragraph separators, the
   * controls U+0009 to U+000D, and NEXT LINE (U+0085).
   */
  predicate IsWhiteSpace(c: char) {
    || '\U{9}' <= c <= '\U{D}' || c == ' ' || c == '\U{85}' || c == '\U{A0}' || c == '\U{1680}'
    || '\U{2000}' <= c <= '\U{200A}' || c == '\U{2028}' || c == '\U{2029}' || c == '\U{202F}'
    || c == '\U{205F}' || c == '\U{3000}'
  }

  function TrimStart(s: string): (r: string)
    ensures |r| <= |s| && r == s[|s| - |r|..]
    ensures r == [] || !IsWhiteSpace(r[0])
    ensures forall k :: 0 <= k < |s| - |r| ==> IsWhiteSpace(s[k])
  {
    if |s| > 0 && IsWhiteSpace(s[0]) then TrimStart(s[1..]) else s
  }

  function TrimEnd(s: string): (r: string)
    ensures |r| <= |s| && r == s[..|r|]
    ensures r == [] || !IsWhiteSpace(r[|r| - 1])
    ensures forall k :: |r| <= k < |s| ==> IsWhiteSpace(s[k])
  {
    if |s| > 0 && IsWhiteSpace(s[|s| - 1]) then TrimEnd(s[..|s| - 1]) else s
  }

  /** String.Trim(): removes leading and trailing whitespace. */
  function Trim(s: string): string {
    TrimEnd(TrimStart(s))
  }

  predicate IsBlank(s: string) {
    forall k :: 0 <= k < |s| ==> IsWhiteSpace(s[k])
  }

  // ---- ordinal ignore-case ---------------------------------------------------

  function ToUpper(c: char): char {
    if 'a' <= c <= 'z' then (c as int - 32) as char else c
  }

  /** StartsWith(prefix, StringComparison.OrdinalIgnoreCase). */
  predicate StartsWithIgnoreCase(s: string, prefix: string) {
    |prefix| <= |s| && forall k :: 0 <= k < |prefix| ==> ToUpper(s[k]) == ToUpper(prefix[k])
  }

  /** EndsWith(suffix, StringComparison.OrdinalIgnoreCase). */
  predicate EndsWithIgnoreCase(s: string, suffix: string) {
    |suffix| <= |s|
    && forall k :: 0 <= k < |suffix| ==> ToUpper(s[|s| - |suffix| + k]) == ToUpper(suffix[k])
  }

  /** An exact suffix is also a suffix when case is ignored. */
  lemma EndsWithIgnoresCase(s: string, suffix: string)
    requires EndsWith(s, suffix)
    ensures EndsWithIgnoreCase(s, suffix)
  {
    forall k | 0 <= k < |suffix|
      ensures ToUpper(s[|s| - |suffix| + k]) == ToUpper(suffix[k])
    {
      assert s[|s| - |suffix|..][k] == s[|s| - |suffix| + k];
    }
  }

  // ---- Split -----------------------------------------------------------------

  /** String.Split(c): the pieces between occurrences of `c`, empty pieces kept. */
  function Split(s: string, c: char): (parts: seq<string>)
    ensures |parts| >= 1
    ensures forall k :: 0 <= k < |parts| ==> c !in parts[k]
    decreases |s|
  {
    var i := IndexOf(s, c);
    if i < 0 then [s] else [s[..i]] + Split(s[i + 1..], c)
  }

  function Join(parts: seq<string>, c: char): string
    requires |parts| >= 1
  {
    if |parts| == 1 then parts[0] else parts[0] + [c] + Join(parts[1..], c)
  }

  lemma JoinThree(a: string, b: string, d: string, c: char)
    ensures Join([a, b, d], c) == a + [c] + b + [c] + d
  {
    assert [a, b, d][1..] == [b, d];
    assert [b, d][1..] == [d];
    assert Join([d], c) == d;
    assert Join([b, d], c) == b + [c] + d;
    assert Join([a, b, d], c) == a + [c] + (b + [c] + d);
  }

  lemma {:induction false} JoinSplit(s: string, c: char)
    ensures Join(Split(s, c), c) == s
    decreases |s|
  {
    var i := IndexOf(s, c);
    var parts := Split(s, c);
    if i >= 0 {
      var rest := Split(s[i + 1..], c);
      assert parts == [s[..i]] + rest;
      assert parts[0] == s[..i] && parts[1..] == rest;
      JoinSplit(s[i + 1..], c);
      calc {
        Join(parts, c);
        parts[0] + [c] + Join(parts[1..], c);
        s[..i] + [c] + s[i + 1..];
        { assert s == s[..i] + [c] + s[i + 1..]; }
        s;
      }
    } else {
      assert parts == [s];
    }
  }

  /** Splitting pieces joined by `c` gives the pieces back. */
  lemma {:induction false} SplitJoin(parts: seq<string>, c: char)
    requires |parts| >= 1
    requires forall k :: 0 <= k < |parts| ==> c !in parts[k]
    ensures Split(Join(parts, c), c) == parts
    decreases |parts|
  {
    if |parts| > 1 {
      var rest := Join(parts[1..], c);
      var s := parts[0] + [c] + rest;
      assert Join(parts, c) == s;
      IndexOfJoin(parts[0], c, rest);
      assert s[..|parts[0]|] == parts[0];
      assert s[|parts[0]| + 1..] == rest;
      SplitJoin(parts[1..], c);
      assert Split(s, c) == [parts[0]] + Split(rest, c);
    } else {
      assert Join(parts, c) == parts[0];
    }
  }
}
