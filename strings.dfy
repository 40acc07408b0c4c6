/**
 * The ordinal (case-sensitive, char-by-char) string operations of .NET that
 * the core relies on: StartsWith, Contains, IndexOf, LastIndexOf, Split(char),
 * joining with a separator, and Replace(string, string).
 */
module Strings {

  /** `s.StartsWith(p, StringComparison.Ordinal)`. */
  predicate StartsWith(s: string, p: string) {
    |p| <= |s| && s[..|p|] == p
  }

  /** `sub` occurs in `s` starting at index `i`. */
  predicate OccursAt(s: string, sub: string, i: int) {
    0 <= i <= |s| - |sub| && s[i..i + |sub|] == sub
  }

  /** `s.Contains(sub, StringComparison.Ordinal)`; true for an empty `sub`. */
  predicate Contains(s: string, sub: string) {
    exists i | 0 <= i <= |s| - |sub| :: OccursAt(s, sub, i)
  }

  /** `s.IndexOf(c)` for a character that occurs in `s`. */
  function FirstIndex(s: string, c: char): (i: nat)
    requires c in s
    ensures i < |s| && s[i] == c
    ensures c !in s[..i]
  {
    if s[0] == c then 0 else 1 + FirstIndex(s[1..], c)
  }

  /** The first occurrence is the only position holding `c` with none before it. */
  lemma {:induction false} FirstIndexAt(s: string, c: char, i: nat)
    requires i < |s| && s[i] == c && c !in s[..i]
    ensures FirstIndex(s, c) == i
    decreases i
  {
    if i > 0 {
      assert s[0] in s[..i];
      assert s[1..][..i - 1] == s[1..i];
      FirstIndexAt(s[1..], c, i - 1);
    }
  }

  /** `s.LastIndexOf(c)` for a character that occurs in `s`. */
  function LastIndex(s: string, c: char): (i: nat)
    requires c in s
    ensures i < |s| && s[i] == c
    ensures c !in s[i + 1..]
  {
    if s[|s| - 1] == c then |s| - 1 else LastIndex(s[..|s| - 1], c)
  }

  /** `s.Split(sep)`: every piece between separators, empty pieces kept. */
  function Split(s: string, sep: char): (parts: seq<string>)
    ensures |parts| >= 1
    decreases |s|
  {
    if sep !in s then [s]
    else
      var i := FirstIndex(s, sep);
      [s[..i]] + Split(s[i + 1..], sep)
  }

  /** The pieces glued back together with `sep` between them. */
  function Join(parts: seq<string>, sep: char): string {
    if |parts| == 0 then ""
    else if |parts| == 1 then parts[0]
    else parts[0] + [sep] + Join(parts[1..], sep)
  }

  /**
   * `s.Replace(pattern, replacement, StringComparison.Ordinal)`: every non-overlapping
   * occurrence of `pattern`, scanning from the left, is replaced by `replacement`.
   * (.NET throws for an empty `pattern`; callers model that case themselves.)
   */
  function ReplaceAll(s: string, pattern: string, replacement: string): string
    requires |pattern| > 0
    decreases |s|
  {
    if |s| < |pattern| then s
    else if s[..|pattern|] == pattern then replacement + ReplaceAll(s[|pattern|..], pattern, replacement)
    else [s[0]] + ReplaceAll(s[1..], pattern, replacement)
  }

  // ---------------------------------------------------------------------
  // Lemmas
  // ---------------------------------------------------------------------

  /** Splitting and re-joining with the same separator gives the string back. */
  lemma {:induction false} JoinSplit(s: string, sep: char)
    ensures Join(Split(s, sep), sep) == s
    decreases |s|
  {
    if sep in s {
      var i := FirstIndex(s, sep);
      var parts, rest := Split(s, sep), Split(s[i + 1..], sep);
      JoinSplit(s[i + 1..], sep);
      assert parts == [s[..i]] + rest;
      assert parts[0] == s[..i] && parts[1..] == rest;
      assert Join(parts, sep) == s[..i] + [sep] + Join(rest, sep);
      assert s == s[..i] + [sep] + s[i + 1..];
    }
  }

  /** No piece of a split contains the separator, and a string that contains
      the separator splits into at least two pieces. */
  lemma {:induction false} SplitPieces(s: string, sep: char)
    ensures forall k :: 0 <= k < |Split(s, sep)| ==> sep !in Split(s, sep)[k]
    ensures sep in s <==> |Split(s, sep)| >= 2
    decreases |s|
  {
    if sep in s {
      var i := FirstIndex(s, sep);
      SplitPieces(s[i + 1..], sep);
      assert Split(s, sep) == [s[..i]] + Split(s[i + 1..], sep);
    }
  }

  /** Splitting undoes joining when no piece contains the separator. */
  lemma {:induction false} SplitJoin(parts: seq<string>, sep: char)
    requires |parts| >= 1
    requires forall k :: 0 <= k < |parts| ==> sep !in parts[k]
    ensures Split(Join(parts, sep), sep) == parts
    decreases |parts|
  {
    if |parts| > 1 {
      var s := Join(parts, sep);
      var rest := parts[1..];
      assert s == parts[0] + [sep] + Join(rest, sep);
      assert s[..|parts[0]|] == parts[0];
      FirstIndexAt(s, sep, |parts[0]|);
      assert s[|parts[0]| + 1..] == Join(rest, sep);
      SplitJoin(rest, sep);
      assert parts == [parts[0]] + rest;
    }
  }

  /** A character absent from a string is absent from every piece of it. */
  lemma {:induction false} SplitPiecesWithout(s: string, sep: char, c: char)
    requires c !in s
    ensures forall k :: 0 <= k < |Split(s, sep)| ==> c !in Split(s, sep)[k]
    decreases |s|
  {
    if sep in s {
      var i := FirstIndex(s, sep);
      assert c !in s[..i];
      assert c !in s[i + 1..];
      SplitPiecesWithout(s[i + 1..], sep, c);
      assert Split(s, sep) == [s[..i]] + Split(s[i + 1..], sep);
    }
  }

  /** A string that does not end with the separator has a non-empty last piece. */
  lemma {:induction false} SplitLastNonEmpty(s: string, sep: char)
    requires |s| > 0 && s[|s| - 1] != sep
    ensures |Split(s, sep)[|Split(s, sep)| - 1]| > 0
    decreases |s|
  {
    if sep in s {
      var i := FirstIndex(s, sep);
      var tail := s[i + 1..];
      assert tail[|tail| - 1] == s[|s| - 1];
      SplitLastNonEmpty(tail, sep);
      assert Split(s, sep) == [s[..i]] + Split(tail, sep);
    }
  }

  /** Appending one piece to a non-empty list of pieces appends the separator
      and the piece to the joined string. */
  lemma {:induction false} JoinSnoc(parts: seq<string>, x: string, sep: char)
    requires |parts| > 0
    ensures Join(parts + [x], sep) == Join(parts, sep) + [sep] + x
    decreases |parts|
  {
    if |parts| > 1 {
      JoinSnoc(parts[1..], x, sep);
      assert (parts + [x])[1..] == parts[1..] + [x];
    }
  }

  /** Writing one more piece into a joined string, with a separator first
      when something was written before. */
  lemma JoinAppend(parts: seq<string>, x: string, sep: char)
    ensures Join(parts + [x], sep) == (if |parts| == 0 then x else Join(parts, sep) + [sep] + x)
  {
    if |parts| > 0 {
      JoinSnoc(parts, x, sep);
    } else {
      assert parts + [x] == [x];
    }
  }

  /** Joining at least two pieces puts the separator in the result. */
  lemma JoinHasSeparator(parts: seq<string>, sep: char)
    requires |parts| >= 2
    ensures sep in Join(parts, sep)
  {
    assert Join(parts, sep)[|parts[0]|] == sep;
  }

  /** Replacing a substring that does not occur changes nothing. */
  lemma {:induction false} ReplaceAllAbsent(s: string, pattern: string, replacement: string)
    requires |pattern| > 0 && !Contains(s, pattern)
    ensures ReplaceAll(s, pattern, replacement) == s
    decreases |s|
  {
    if |s| >= |pattern| {
      assert !OccursAt(s, pattern, 0);
      assert !Contains(s[1..], pattern) by {
        forall i | OccursAt(s[1..], pattern, i)
          ensures false
        {
          assert s[1..][i..i + |pattern|] == s[i + 1..i + 1 + |pattern|];
          assert OccursAt(s, pattern, i + 1);
        }
      }
      ReplaceAllAbsent(s[1..], pattern, replacement);
    }
  }

  /** Replacing a substring by itself changes nothing. */
  lemma {:induction false} ReplaceAllSelf(s: string, pattern: string)
    requires |pattern| > 0
    ensures ReplaceAll(s, pattern, pattern) == s
    decreases |s|
  {
    if |s| >= |pattern| {
      if s[..|pattern|] == pattern {
        ReplaceAllSelf(s[|pattern|..], pattern);
        assert s == s[..|pattern|] + s[|pattern|..];
      } else {
        ReplaceAllSelf(s[1..], pattern);
        assert s == [s[0]] + s[1..];
      }
    }
  }

  /** A prefix without the pattern's first character is copied unchanged. */
  lemma {:induction false} ReplaceAllSkips(a: string, t: string, pattern: string, replacement: string)
    requires |pattern| > 0 && pattern[0] !in a
    ensures ReplaceAll(a + t, pattern, replacement) == a + ReplaceAll(t, pattern, replacement)
    decreases |a|
  {
    if |a| > 0 {
      var s := a + t;
      ReplaceAllSkips(a[1..], t, pattern, replacement);
      assert a[0] in a;
      if |s| >= |pattern| {
        assert s[..|pattern|][0] == a[0];
        assert s[..|pattern|] != pattern;
        assert s[1..] == a[1..] + t;
        assert ReplaceAll(s, pattern, replacement) == [a[0]] + ReplaceAll(a[1..] + t, pattern, replacement);
        assert a + ReplaceAll(t, pattern, replacement) == [a[0]] + (a[1..] + ReplaceAll(t, pattern, replacement));
      } else {
        assert ReplaceAll(t, pattern, replacement) == t;
      }
    } else {
      assert a + t == t;
    }
  }

  /** A text without the pattern's first character contains no occurrence. */
  lemma NotContainsFirst(s: string, pattern: string)
    requires |pattern| > 0 && pattern[0] !in s
    ensures !Contains(s, pattern)
  {
    forall i | 0 <= i <= |s| - |pattern| ensures !OccursAt(s, pattern, i) {
      assert s[i..i + |pattern|][0] == s[i] != pattern[0];
    }
  }

  /** An occurrence at the start is replaced, and the scan goes on after it. */
  lemma ReplaceAllLeading(b: string, pattern: string, replacement: string)
    requires |pattern| > 0
    ensures ReplaceAll(pattern + b, pattern, replacement) == replacement + ReplaceAll(b, pattern, replacement)
  {
    assert (pattern + b)[..|pattern|] == pattern && (pattern + b)[|pattern|..] == b;
  }

  /** One occurrence, with no other place where the pattern could start,
      is replaced and the rest is copied. */
  lemma ReplaceAllOnce(a: string, b: string, pattern: string, replacement: string)
    requires |pattern| > 0 && pattern[0] !in a && pattern[0] !in b
    ensures ReplaceAll(a + pattern + b, pattern, replacement) == a + replacement + b
  {
    ReplaceAllSkips(a, pattern + b, pattern, replacement);
    assert a + pattern + b == a + (pattern + b);
    ReplaceAllLeading(b, pattern, replacement);
    NotContainsFirst(b, pattern);
    ReplaceAllAbsent(b, pattern, replacement);
  }

  /** A text that does not start with the pattern, and holds the pattern's
      first character nowhere else, is left as it is. */
  lemma ReplaceAllNotAtStart(s: string, pattern: string, replacement: string)
    requires |pattern| > 0 && |s| > 0 && !StartsWith(s, pattern) && pattern[0] !in s[1..]
    ensures ReplaceAll(s, pattern, replacement) == s
  {
    NotContainsFirst(s[1..], pattern);
    ReplaceAllAbsent(s[1..], pattern, replacement);
    assert s == [s[0]] + s[1..];
  }
}
