/// The string operations the sources rely on, over `seq<char>`: ASCII case
/// mapping, the two whitespace classes (JavaScript's and Rust's), prefix tests,
/// splitting and joining on one separator character, trimming and
/// left-to-right replacement of a pattern.
module Strings {

  // ---------------------------------------------------------------------------
  // Case mapping (ASCII letters only)
  // ---------------------------------------------------------------------------

  function LowerChar(c: char): char {
    if 'A' <= c <= 'Z' then (c as int + 32) as char else c
  }

  function UpperChar(c: char): char {
    if 'a' <= c <= 'z' then (c as int - 32) as char else c
  }

  /** `toLowerCase()` / `to_lowercase()`, character by character. */
  function Lower(s: string): (r: string)
    ensures |r| == |s|
    ensures forall i :: 0 <= i < |s| ==> r[i] == LowerChar(s[i])
  {
    seq(|s|, i requires 0 <= i < |s| => LowerChar(s[i]))
  }

  lemma LowerIdempotent(s: string)
    ensures Lower(Lower(s)) == Lower(s)
  {
  }

  lemma LowerConcat(a: string, b: string)
    ensures Lower(a + b) == Lower(a) + Lower(b)
  {
  }

  /** Lower-casing neither creates nor removes a character without case. */
  lemma LowerKeepsCaseless(s: string, c: char)
    requires LowerChar(c) == c && !('a' <= c <= 'z')
    ensures c in Lower(s) <==> c in s
  {
    if c in Lower(s) {
      var j :| 0 <= j < |s| && Lower(s)[j] == c;
      assert s[j] == c;
    }
    if c in s {
      var j :| 0 <= j < |s| && s[j] == c;
      assert Lower(s)[j] == c;
    }
  }

  predicate StartsWith(s: string, prefix: string) {
    |prefix| <= |s| && s[..|prefix|] == prefix
  }

  // ---------------------------------------------------------------------------
  // Whitespace
  // ---------------------------------------------------------------------------

  /** The characters matched by `\s` in a JavaScript regular expression and
      removed by `String.prototype.trim`. */
  predicate IsJsSpace(c: char) {
    c == '\t' || c == '\n' || c == '\U{000B}' || c == '\U{000C}' || c == '\r' || c == ' '
    || c == '\U{00A0}' || c == '\U{1680}' || ('\U{2000}' <= c <= '\U{200A}')
    || c == '\U{2028}' || c == '\U{2029}' || c == '\U{202F}' || c == '\U{205F}'
    || c == '\U{3000}' || c == '\U{FEFF}'
  }

  /** The characters Rust's `char::is_whitespace` accepts (and `str::trim` removes). */
  predicate IsRustWhitespace(c: char) {
    c == '\t' || c == '\n' || c == '\U{000B}' || c == '\U{000C}' || c == '\r' || c == ' '
    || c == '\U{0085}' || c == '\U{00A0}' || c == '\U{1680}' || ('\U{2000}' <= c <= '\U{200A}')
    || c == '\U{2028}' || c == '\U{2029}' || c == '\U{202F}' || c == '\U{205F}'
    || c == '\U{3000}'
  }

  /** Drops the leading characters that satisfy `ws`. */
  function TrimStart(s: string, ws: char -> bool): string {
    if |s| > 0 && ws(s[0]) then TrimStart(s[1..], ws) else s
  }

  /** TrimStart removes a prefix of `ws` characters and stops at a non-`ws`
      one. */
  lemma {:induction false} TrimStartSpec(s: string, ws: char -> bool)
    ensures var r := TrimStart(s, ws);
      |r| <= |s| && r == s[|s| - |r|..] &&
      (forall k :: 0 <= k < |s| - |r| ==> ws(s[k])) &&
      (r == [] || !ws(r[0]))
  {
    if |s| > 0 && ws(s[0]) {
      TrimStartSpec(s[1..], ws);
      var r := TrimStart(s[1..], ws);
      assert s[1..][|s| - 1 - |r|..] == s[|s| - |r|..];
      assert forall k :: 1 <= k < |s| - |r| ==> s[k] == s[1..][k - 1];
    }
  }

  /** Drops the trailing characters that satisfy `ws`. */
  function TrimEnd(s: string, ws: char -> bool): string {
    if |s| > 0 && ws(s[|s| - 1]) then TrimEnd(s[..|s| - 1], ws) else s
  }

  /** TrimEnd removes a suffix of `ws` characters and stops at a non-`ws`
      one. */
  lemma {:induction false} TrimEndSpec(s: string, ws: char -> bool)
    ensures var r := TrimEnd(s, ws);
      |r| <= |s| && r == s[..|r|] &&
      (forall k :: |r| <= k < |s| ==> ws(s[k])) &&
      (r == [] || !ws(r[|r| - 1]))
  {
    if |s| > 0 && ws(s[|s| - 1]) {
      TrimEndSpec(s[..|s| - 1], ws);
      var r := TrimEnd(s[..|s| - 1], ws);
      assert s[..|s| - 1][..|r|] == s[..|r|];
      assert forall k :: |r| <= k < |s| - 1 ==> s[k] == s[..|s| - 1][k];
    }
  }

  /** `r` is the slice of `s` that starts at index `i`. */
  predicate SliceAt(s: string, r: string, i: int) {
    0 <= i && i + |r| <= |s| && s[i..i + |r|] == r
  }

  /** Drops leading and trailing `ws` characters. */
  function Trim(s: string, ws: char -> bool): string {
    TrimEnd(TrimStart(s, ws), ws)
  }

  /** The trimmed string is the slice of `s`, after the leading `ws`
      characters, that starts and ends with a non-`ws` character. */
  lemma TrimSpec(s: string, ws: char -> bool)
    ensures SliceAt(s, Trim(s, ws), |s| - |TrimStart(s, ws)|)
    ensures Trim(s, ws) == [] || (!ws(Trim(s, ws)[0]) && !ws(Trim(s, ws)[|Trim(s, ws)| - 1]))
  {
    var t := TrimStart(s, ws);
    TrimStartSpec(s, ws);
    TrimEndSpec(t, ws);
    var r := TrimEnd(t, ws);
    var i := |s| - |t|;
    assert s[i..i + |r|] == t[..|r|];
  }

  /** Trimming gives the slice `s[i..j]` whenever everything before `i` and
      from `j` on is `ws` and the slice is empty or has non-`ws` ends: the
      trimmed string is determined by these properties alone. */
  lemma TrimIsUnique(s: string, ws: char -> bool, i: nat, j: nat)
    requires i <= j <= |s|
    requires forall k :: 0 <= k < i ==> ws(s[k])
    requires forall k :: j <= k < |s| ==> ws(s[k])
    requires i == j || (!ws(s[i]) && !ws(s[j - 1]))
    ensures Trim(s, ws) == s[i..j]
  {
    var t := TrimStart(s, ws);
    TrimStartSpec(s, ws);
    var m := |s| - |t|;
    if i == j {
      TrimEmptyIff(s, ws);
      assert forall k :: 0 <= k < |s| ==> ws(s[k]) by {
        forall k | 0 <= k < |s| ensures ws(s[k]) {
          if k >= j {
          } else {
            assert k < i;
          }
        }
      }
    } else {
      assert m == i;
      TrimEndSpec(t, ws);
      var r := TrimEnd(t, ws);
      assert t == s[i..];
      assert |r| == j - i;
      assert r == s[i..j];
    }
  }

  /** `s.trim()` is empty exactly when every character of `s` is `ws`. */
  lemma TrimEmptyIff(s: string, ws: char -> bool)
    ensures Trim(s, ws) == [] <==> forall k :: 0 <= k < |s| ==> ws(s[k])
  {
    var t := TrimStart(s, ws);
    TrimStartSpec(s, ws);
    TrimEndSpec(t, ws);
    if t != [] {
      assert !ws(s[|s| - |t|]);
      assert TrimEnd(t, ws) != [];
    }
  }

  // ---------------------------------------------------------------------------
  // Splitting and joining on one separator character
  // ---------------------------------------------------------------------------

  function Count(s: string, c: char): nat {
    multiset(s)[c]
  }

  /** Index of the first occurrence of `c`. */
  function IndexOf(s: string, c: char): (i: nat)
    requires c in s
    ensures i < |s| && s[i] == c && c !in s[..i]
  {
    if s[0] == c then 0
    else
      var j := IndexOf(s[1..], c);
      assert s[..1 + j] == [s[0]] + s[1..][..j];
      1 + j
  }

  lemma {:induction false} IndexOfIs(s: string, c: char, j: nat)
    requires j < |s| && s[j] == c && c !in s[..j]
    ensures IndexOf(s, c) == j
  {
    if j > 0 {
      assert s[0] == s[..j][0];
      assert s[1..][..j - 1] == s[..j][1..];
      IndexOfIs(s[1..], c, j - 1);
    }
  }

  /** `s.split(sep)` for a one-character separator: the maximal pieces
      between separators, in order; the empty string gives one empty piece. */
  function Split(s: string, sep: char): (r: seq<string>)
    ensures |r| == Count(s, sep) + 1
    ensures forall k :: 0 <= k < |r| ==> sep !in r[k]
    decreases |s|
  {
    if sep !in s then [s]
    else
      var i := IndexOf(s, sep);
      assert s == s[..i] + [sep] + s[i + 1..];
      assert multiset(s) == multiset(s[..i]) + multiset{sep} + multiset(s[i + 1..]);
      [s[..i]] + Split(s[i + 1..], sep)
  }

  /** `pieces.join(sep)`. */
  function Join(pieces: seq<string>, sep: char): string {
    if |pieces| == 0 then ""
    else if |pieces| == 1 then pieces[0]
    else pieces[0] + [sep] + Join(pieces[1..], sep)
  }

  lemma {:induction false} JoinSplit(s: string, sep: char)
    ensures Join(Split(s, sep), sep) == s
    decreases |s|
  {
    if sep in s {
      var i := IndexOf(s, sep);
      var before, after := s[..i], s[i + 1..];
      assert s == before + [sep] + after;
      SplitAtFirst(before, sep, after);
      var tail := Split(after, sep);
      JoinSplit(after, sep);
      var pieces := [before] + tail;
      assert pieces[1..] == tail;
      assert Join(pieces, sep) == before + [sep] + Join(tail, sep);
    }
  }

  /** Splitting at a first separator: the piece before it, then the split of
      the rest. */
  lemma SplitAtFirst(t: string, sep: char, rest: string)
    requires sep !in t
    ensures Split(t + [sep] + rest, sep) == [t] + Split(rest, sep)
  {
    var s := t + [sep] + rest;
    assert s[..|t|] == t && s[|t|] == sep && s[|t| + 1..] == rest;
    IndexOfIs(s, sep, |t|);
  }

  lemma {:induction false} SplitJoin(pieces: seq<string>, sep: char)
    requires |pieces| >= 1
    requires forall k :: 0 <= k < |pieces| ==> sep !in pieces[k]
    ensures Split(Join(pieces, sep), sep) == pieces
  {
    if |pieces| == 1 {
      assert sep !in pieces[0];
    } else {
      var rest := Join(pieces[1..], sep);
      assert Join(pieces, sep) == pieces[0] + [sep] + rest;
      SplitAtFirst(pieces[0], sep, rest);
      SplitJoin(pieces[1..], sep);
      assert [pieces[0]] + pieces[1..] == pieces;
    }
  }

  /** The join of several pieces is empty only when there is one empty piece. */
  lemma JoinEmpty(pieces: seq<string>, sep: char)
    requires |pieces| >= 1
    ensures Join(pieces, sep) == "" <==> pieces == [""]
  {
    if |pieces| > 1 {
      assert |Join(pieces, sep)| >= 1;
    }
  }

  // ---------------------------------------------------------------------------
  // Replacing every occurrence of a pattern
  // ---------------------------------------------------------------------------

  predicate OccursAt(s: string, pattern: string, i: int) {
    0 <= i && i + |pattern| <= |s| && s[i..i + |pattern|] == pattern
  }

  predicate Contains(s: string, pattern: string) {
    exists i | 0 <= i <= |s| - |pattern| :: OccursAt(s, pattern, i)
  }

  /** `str::replace(pattern, replacement)`: scans left to right and replaces
      each non-overlapping occurrence of a non-empty pattern. */
  function ReplaceAll(s: string, pattern: string, replacement: string): string
    requires |pattern| > 0
    decreases |s|
  {
    if |s| < |pattern| then s
    else if s[..|pattern|] == pattern then replacement + ReplaceAll(s[|pattern|..], pattern, replacement)
    else [s[0]] + ReplaceAll(s[1..], pattern, replacement)
  }

  /** A string without the pattern is left unchanged. */
  lemma {:induction false} ReplaceAllAbsent(s: string, pattern: string, replacement: string)
    requires |pattern| > 0 && !Contains(s, pattern)
    ensures ReplaceAll(s, pattern, replacement) == s
    decreases |s|
  {
    if |s| >= |pattern| {
      assert !OccursAt(s, pattern, 0);
      assert s[..|pattern|] != pattern;
      forall i | 0 <= i <= |s[1..]| - |pattern|
        ensures !OccursAt(s[1..], pattern, i)
      {
        assert s[1..][i..i + |pattern|] == s[i + 1..i + 1 + |pattern|];
        assert !OccursAt(s, pattern, i + 1);
      }
      ReplaceAllAbsent(s[1..], pattern, replacement);
    }
  }

  /** The first occurrence is replaced and the scan resumes after it: when
      the pattern starts nowhere in `a` (so `a + pattern[..|pattern| - 1]`
      holds no occurrence), replacing in `a + pattern + b` keeps `a`, puts the
      replacement in the pattern's place and goes on with `b`. */
  lemma {:induction false} ReplaceAllAtFirst(a: string, pattern: string, b: string, replacement: string)
    requires |pattern| > 0
    requires !Contains(a + pattern[..|pattern| - 1], pattern)
    ensures ReplaceAll(a + pattern + b, pattern, replacement) == a + replacement + ReplaceAll(b, pattern, replacement)
    decreases |a|
  {
    var n := |pattern|;
    if a == [] {
      ReplaceAllAtStart(pattern, b, replacement);
      assert a + pattern + b == pattern + b && a + replacement == replacement;
    } else {
      var w := a + pattern[..n - 1];
      NoOccurrenceInTail(w, pattern);
      assert w[1..] == a[1..] + pattern[..n - 1];
      ReplaceAllAtFirst(a[1..], pattern, b, replacement);
      ReplaceAllPastHead(a, pattern, b, replacement);
      var tail := replacement + ReplaceAll(b, pattern, replacement);
      assert [a[0]] + (a[1..] + tail) == a + tail by {
        assert a == [a[0]] + a[1..];
      }
    }
  }

  /** One step of the scan over a part that starts no occurrence. */
  lemma ReplaceAllPastHead(a: string, pattern: string, b: string, replacement: string)
    requires |pattern| > 0 && a != []
    requires !Contains(a + pattern[..|pattern| - 1], pattern)
    ensures ReplaceAll(a + pattern + b, pattern, replacement) ==
      [a[0]] + ReplaceAll(a[1..] + pattern + b, pattern, replacement)
  {
    var s := a + pattern + b;
    var n := |pattern|;
    var w := a + pattern[..n - 1];
    NoOccurrenceAtStart(w, pattern);
    assert w[..n] == s[..n];
    ReplaceAllSkip(s, pattern, replacement);
    assert s[1..] == a[1..] + pattern + b;
  }

  lemma ReplaceAllAtStart(pattern: string, b: string, replacement: string)
    requires |pattern| > 0
    ensures ReplaceAll(pattern + b, pattern, replacement) == replacement + ReplaceAll(b, pattern, replacement)
  {
    ReplaceAllHit(pattern + b, pattern, replacement);
    assert (pattern + b)[|pattern|..] == b;
  }

  /** At an occurrence the replacement is emitted and the scan jumps past it. */
  lemma ReplaceAllHit(s: string, pattern: string, replacement: string)
    requires |pattern| > 0 && |s| >= |pattern| && s[..|pattern|] == pattern
    ensures ReplaceAll(s, pattern, replacement) == replacement + ReplaceAll(s[|pattern|..], pattern, replacement)
  {
  }

  /** Elsewhere the character is kept and the scan moves on by one. */
  lemma ReplaceAllSkip(s: string, pattern: string, replacement: string)
    requires |pattern| > 0 && |s| >= |pattern| && s[..|pattern|] != pattern
    ensures ReplaceAll(s, pattern, replacement) == [s[0]] + ReplaceAll(s[1..], pattern, replacement)
  {
  }

  lemma NoOccurrenceAtStart(w: string, pattern: string)
    requires |pattern| > 0 && |w| >= |pattern| && !Contains(w, pattern)
    ensures w[..|pattern|] != pattern
  {
    assert !OccursAt(w, pattern, 0);
  }

  /** Dropping the first character creates no occurrence. */
  lemma NoOccurrenceInTail(w: string, pattern: string)
    requires |w| > 0 && !Contains(w, pattern)
    ensures !Contains(w[1..], pattern)
  {
    var t, m := w[1..], |pattern|;
    forall i | 0 <= i <= |t| - m ensures !OccursAt(t, pattern, i) {
      assert !OccursAt(w, pattern, i + 1);
      assert t[i..i + m] == w[i + 1..i + 1 + m];
    }
  }

  /** The pieces joined with the string `sep` between each two. */
  function JoinWith(parts: seq<string>, sep: string): string {
    if |parts| == 0 then ""
    else if |parts| == 1 then parts[0]
    else parts[0] + sep + JoinWith(parts[1..], sep)
  }

  /** Every occurrence the scan meets is replaced: a text made of parts with
      the pattern between them, where no part starts an occurrence of its
      own, comes out as the same parts with the replacement between them. */
  lemma {:induction false} ReplaceAllParts(parts: seq<string>, pattern: string, replacement: string)
    requires |pattern| > 0 && |parts| >= 1
    requires forall k :: 0 <= k < |parts| - 1 ==> !Contains(parts[k] + pattern[..|pattern| - 1], pattern)
    requires !Contains(parts[|parts| - 1], pattern)
    ensures ReplaceAll(JoinWith(parts, pattern), pattern, replacement) == JoinWith(parts, replacement)
  {
    if |parts| == 1 {
      ReplaceAllAbsent(parts[0], pattern, replacement);
    } else {
      var rest := parts[1..];
      forall k | 0 <= k < |rest| - 1 ensures !Contains(rest[k] + pattern[..|pattern| - 1], pattern) {
        assert rest[k] == parts[k + 1];
      }
      assert rest[|rest| - 1] == parts[|parts| - 1];
      assert !Contains(parts[0] + pattern[..|pattern| - 1], pattern);
      ReplaceAllParts(rest, pattern, replacement);
      ReplaceAllAtFirst(parts[0], pattern, JoinWith(rest, pattern), replacement);
    }
  }

  /** A character that is in no part and not in the separator is not in the
      join. */
  lemma {:induction false} JoinWithAvoids(parts: seq<string>, sep: string, c: char)
    requires forall k :: 0 <= k < |parts| ==> c !in parts[k]
    requires c !in sep
    ensures c !in JoinWith(parts, sep)
  {
    if |parts| > 1 {
      JoinWithAvoids(parts[1..], sep, c);
      assert parts[0] == parts[0];
    }
  }

  /** A pattern starts with `c` and the text has no `c`: no occurrence. */
  lemma HeadAbsentNoOccurrence(s: string, pattern: string)
    requires |pattern| > 0 && pattern[0] !in s
    ensures !Contains(s, pattern)
  {
    forall i | 0 <= i <= |s| - |pattern| ensures !OccursAt(s, pattern, i) {
      assert s[i..i + |pattern|][0] == s[i];
    }
  }

  /** A part without the pattern's first character starts no occurrence,
      whatever follows it. */
  lemma HeadAbsentStartsNothing(a: string, pattern: string)
    requires |pattern| > 0 && pattern[0] !in a
    ensures !Contains(a + pattern[..|pattern| - 1], pattern)
  {
    var w := a + pattern[..|pattern| - 1];
    forall i | 0 <= i <= |w| - |pattern| ensures !OccursAt(w, pattern, i) {
      assert w[i..i + |pattern|][0] == w[i] == a[i];
    }
  }

  // ---------------------------------------------------------------------------
  // Splitting on runs of whitespace, as `s.split(/\s+/)` does
  // ---------------------------------------------------------------------------

  /** Drops the leading run of JavaScript whitespace. */
  function DropSpaces(s: string): (r: string)
    ensures |r| <= |s| && r == s[|s| - |r|..]
    ensures r == [] || !IsJsSpace(r[0])
  {
    if |s| > 0 && IsJsSpace(s[0]) then DropSpaces(s[1..]) else s
  }

  /** `s.split(/\s+/)`: the pieces between maximal whitespace runs; a leading
      or trailing run yields an empty first or last piece. */
  function SplitOnSpaceRuns(s: string): (r: seq<string>)
    ensures |r| >= 1
    ensures r[0] == "" <==> (s == [] || IsJsSpace(s[0]))
    decreases |s|
  {
    if |s| == 0 then [""]
    else if IsJsSpace(s[0]) then [""] + SplitOnSpaceRuns(DropSpaces(s))
    else
      var rest := SplitOnSpaceRuns(s[1..]);
      [[s[0]] + rest[0]] + rest[1..]
  }

  lemma {:induction false} SplitOnSpaceRunsPieces(s: string)
    ensures forall k, j :: 0 <= k < |SplitOnSpaceRuns(s)| && 0 <= j < |SplitOnSpaceRuns(s)[k]| ==>
      !IsJsSpace(SplitOnSpaceRuns(s)[k][j])
    decreases |s|
  {
    if |s| > 0 {
      if IsJsSpace(s[0]) {
        SplitOnSpaceRunsPieces(DropSpaces(s));
      } else {
        SplitOnSpaceRunsPieces(s[1..]);
      }
    }
  }
}
