/**
 * The string operations the enforcer relies on, with Python's semantics:
 * `str.startswith`, `str.strip()` (no argument) and `str.split(sep)` for a
 * one-character separator, plus `sep.join` as the inverse of the split.
 */
module Text {

  /** A character that Python's `str.strip()` removes by default (`str.isspace`). */
  predicate IsSpace(c: char) {
    var n := c as int;
    || (0x09 <= n <= 0x0D)
    || (0x1C <= n <= 0x20)
    || n == 0x85 || n == 0xA0 || n == 0x1680
    || (0x2000 <= n <= 0x200A)
    || n == 0x2028 || n == 0x2029 || n == 0x202F || n == 0x205F || n == 0x3000
  }

  predicate AllSpace(s: string) {
    forall k :: 0 <= k < |s| ==> IsSpace(s[k])
  }

  /** `s.startswith(prefix)`; every string starts with the empty prefix. */
  predicate StartsWith(s: string, prefix: string) {
    |prefix| <= |s| && s[..|prefix|] == prefix
  }

  predicate EndsWith(s: string, suffix: string) {
    |suffix| <= |s| && s[|s| - |suffix|..] == suffix
  }

  /** `part in s` for strings: `part` occurs somewhere in `s`. */
  predicate Contains(s: string, part: string) {
    exists k :: 0 <= k <= |s| - |part| && StartsWith(s[k..], part)
  }

  lemma ContainsMiddle(before: string, part: string, after: string)
    ensures Contains(before + part + after, part)
  {
    var s := before + part + after;
    assert s[|before|..][..|part|] == part;
    assert StartsWith(s[|before|..], part);
  }

  lemma ContainsAtEnd(before: string, part: string)
    ensures Contains(before + part, part)
  {
    assert (before + part)[|before|..] == part;
  }

  /** What occurs in a prefix of `s` occurs in `s`. */
  lemma ContainsInPrefix(s: string, prefix: string, part: string)
    requires StartsWith(s, prefix)
    requires Contains(prefix, part)
    ensures Contains(s, part)
  {
    assert s == prefix + s[|prefix|..];
    ContainsExtended(prefix, s[|prefix|..], part);
  }

  /** What occurs in `t` still occurs once text is put in front of it. */
  lemma ContainsPrepended(s: string, t: string, part: string)
    requires Contains(t, part)
    ensures Contains(s + t, part)
  {
    var k :| 0 <= k <= |t| - |part| && StartsWith(t[k..], part);
    assert (s + t)[|s| + k..] == t[k..];
  }

  /** What occurs in `s` still occurs once more text is appended. */
  lemma ContainsExtended(s: string, t: string, part: string)
    requires Contains(s, part)
    ensures Contains(s + t, part)
  {
    var k :| 0 <= k <= |s| - |part| && StartsWith(s[k..], part);
    assert (s + t)[k..][..|part|] == s[k..][..|part|];
  }

  lemma EndsWithAppended(s: string, suffix: string)
    ensures EndsWith(s + suffix, suffix)
  {
  }

  /** The number of whitespace characters `s` starts with. */
  function LeadingSpace(s: string): (n: nat)
    ensures n <= |s|
    ensures forall k :: 0 <= k < n ==> IsSpace(s[k])
    ensures n < |s| ==> !IsSpace(s[n])
  {
    if s != [] && IsSpace(s[0]) then 1 + LeadingSpace(s[1..]) else 0
  }

  /** The number of whitespace characters `s` ends with. */
  function TrailingSpace(s: string): (n: nat)
    ensures n <= |s|
    ensures forall k :: |s| - n <= k < |s| ==> IsSpace(s[k])
    ensures n < |s| ==> !IsSpace(s[|s| - n - 1])
  {
    if s != [] && IsSpace(s[|s| - 1]) then 1 + TrailingSpace(s[..|s| - 1]) else 0
  }

  /**
   * Python's `s.strip()`: the slice of `s` between its leading and its
   * trailing whitespace. What is cut off at either end is whitespace, and
   * the result neither starts nor ends with whitespace.
   */
  function Strip(s: string): (r: string)
    ensures var i := LeadingSpace(s);
            && i + |r| <= |s| && r == s[i..i + |r|]
            && (forall k :: 0 <= k < i ==> IsSpace(s[k]))
            && (forall k :: i + |r| <= k < |s| ==> IsSpace(s[k]))
    ensures r == [] || (!IsSpace(r[0]) && !IsSpace(r[|r| - 1]))
  {
    var i := LeadingSpace(s);
    var j := |s| - TrailingSpace(s[i..]);
    assert forall k :: j <= k < |s| ==> s[k] == s[i..][k - i];
    s[i..j]
  }

  /** A string that neither starts nor ends with whitespace is its own strip. */
  lemma StripUnchanged(s: string)
    requires s != [] && !IsSpace(s[0]) && !IsSpace(s[|s| - 1])
    ensures Strip(s) == s
  {
  }

  /** A string strips to the empty string exactly when it is all whitespace. */
  lemma StripEmptyIffAllSpace(s: string)
    ensures Strip(s) == [] <==> AllSpace(s)
  {
  }

  /** Python's `sep.join(parts)`. */
  function Join(parts: seq<string>, sep: char): string
  {
    if |parts| == 0 then ""
    else if |parts| == 1 then parts[0]
    else parts[0] + [sep] + Join(parts[1..], sep)
  }

  /**
   * Python's `s.split(sep)` for a one-character separator: the pieces between
   * separators, never an empty list (`''.split(',') == ['']`), no piece holds
   * the separator, and joining the pieces gives back `s`.
   */
  function Split(s: string, sep: char): (parts: seq<string>)
    ensures |parts| >= 1
    ensures forall i :: 0 <= i < |parts| ==> sep !in parts[i]
    ensures Join(parts, sep) == s
    decreases |s|
  {
    if s == [] then [""]
    else
      var rest := Split(s[1..], sep);
      if s[0] == sep then
        assert ([""] + rest)[1..] == rest;
        [""] + rest
      else
        var parts := [[s[0]] + rest[0]] + rest[1..];
        assert parts[1..] == rest[1..];
        if |rest| == 1 then
          parts
        else
          assert Join(rest, sep) == rest[0] + [sep] + Join(rest[1..], sep);
          assert s == [s[0]] + s[1..];
          parts
  }

  /** A piece without the separator splits to itself. */
  lemma {:induction false} SplitPiece(a: string, sep: char)
    requires sep !in a
    ensures Split(a, sep) == [a]
    decreases |a|
  {
  }

  /** Splitting `a + sep + t` yields the piece `a` followed by the split of `t`. */
  lemma {:induction false} SplitThroughSeparator(a: string, sep: char, t: string)
    requires sep !in a
    ensures Split(a + [sep] + t, sep) == [a] + Split(t, sep)
    decreases |a|
  {
    var s := a + [sep] + t;
    if a == [] {
      assert s[1..] == t;
    } else {
      assert s[1..] == a[1..] + [sep] + t;
      SplitThroughSeparator(a[1..], sep, t);
      assert [a[0]] + a[1..] == a;
    }
  }

  /**
   * The other round trip: a non-empty list of pieces free of the separator is
   * what splitting their join gives back. Together with Split's contract,
   * Split and Join are inverse to each other.
   */
  lemma {:induction false} SplitJoin(parts: seq<string>, sep: char)
    requires |parts| >= 1
    requires forall i :: 0 <= i < |parts| ==> sep !in parts[i]
    ensures Split(Join(parts, sep), sep) == parts
    decreases |parts|
  {
    if |parts| == 1 {
      SplitPiece(parts[0], sep);
    } else {
      SplitThroughSeparator(parts[0], sep, Join(parts[1..], sep));
      SplitJoin(parts[1..], sep);
      assert [parts[0]] + parts[1..] == parts;
    }
  }
}
