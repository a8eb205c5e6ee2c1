/// The panel that shows the captured selection: whether it counts as long,
/// the excerpt shown when collapsed, and the word and character counts. An
/// absent selection and the empty string are both shown as "no text".
module SelectedTextPanel {
  import opened Wrappers
  import opened Strings

  /** The text is present and longer than 200 characters. */
  predicate IsLongText(text: Option<string>) {
    text.Some? && |text.value| > 200
  }

  /** `body` is a contiguous part of `s`. */
  ghost predicate SliceOf(s: string, body: string) {
    exists i :: SliceAt(s, body, i)
  }

  /** The collapsed display: for long text, its first 150 characters trimmed
      and followed by `...`; otherwise the text itself. */
  function Excerpt(text: Option<string>): (r: Option<string>)
    ensures !IsLongText(text) ==> r == text
    ensures IsLongText(text) ==> r == Some(Trim(text.value[..150], IsJsSpace) + "...")
    ensures IsLongText(text) ==>
      r.Some? && 3 <= |r.value| <= 153 && |r.value| < |text.value| &&
      r.value[|r.value| - 3..] == "..." &&
      SliceOf(text.value[..150], r.value[..|r.value| - 3]) &&
      (r.value[..|r.value| - 3] == [] ||
       (!IsJsSpace(r.value[0]) && !IsJsSpace(r.value[|r.value| - 4])))
  {
    if IsLongText(text) then
      var body := Trim(text.value[..150], IsJsSpace);
      TrimSpec(text.value[..150], IsJsSpace);
      var e := body + "...";
      assert e[..|e| - 3] == body;
      Some(e)
    else text
  }

  /** For long text, the excerpt's body is the part of the first 150
      characters left once the whitespace runs at both ends are dropped:
      whatever `i` and `j` mark off such a part, the excerpt is that part
      followed by `...`. */
  lemma ExcerptIsTrimmedPrefix(text: Option<string>, i: nat, j: nat)
    requires IsLongText(text)
    requires i <= j <= 150
    requires forall k :: 0 <= k < i ==> IsJsSpace(text.value[k])
    requires forall k :: j <= k < 150 ==> IsJsSpace(text.value[k])
    requires i == j || (!IsJsSpace(text.value[i]) && !IsJsSpace(text.value[j - 1]))
    ensures Excerpt(text) == Some(text.value[i..j] + "...")
  {
    var p := text.value[..150];
    TrimIsUnique(p, IsJsSpace, i, j);
    assert p[i..j] == text.value[i..j];
  }

  /** A long text whose first 150 characters have no whitespace at either
      end is shown as exactly those characters followed by `...`. */
  lemma ExcerptKeepsUntrimmedPrefix(text: Option<string>)
    requires IsLongText(text)
    requires !IsJsSpace(text.value[0]) && !IsJsSpace(text.value[149])
    ensures Excerpt(text) == Some(text.value[..150] + "...")
  {
    ExcerptIsTrimmedPrefix(text, 0, 150);
  }

  /** `filter((word) => word.length > 0).length`. */
  function NonEmptyCount(pieces: seq<string>): (n: nat)
    ensures n <= |pieces|
  {
    if pieces == [] then 0
    else (if pieces[0] != "" then 1 else 0) + NonEmptyCount(pieces[1..])
  }

  /** The number of words: the non-empty pieces between whitespace runs, and
      0 for an absent or empty selection. */
  function WordCount(text: Option<string>): nat {
    if text.None? || text.value == "" then 0 else NonEmptyCount(SplitOnSpaceRuns(text.value))
  }

  /** The number of characters, 0 for an absent selection. */
  function CharCount(text: Option<string>): nat {
    if text.None? then 0 else |text.value|
  }

  /** What the panel shows: nothing for an absent or empty selection (the
      placeholder), the full text when expanded, the excerpt otherwise. */
  function Displayed(text: Option<string>, expanded: bool): Option<string> {
    if text.None? || text.value == "" then None
    else if expanded then text
    else Excerpt(text)
  }

  /** The expand toggle, offered only for long text, is the only case in
      which expanding changes what is shown. */
  lemma ToggleMattersOnlyForLongText(text: Option<string>)
    ensures Displayed(text, true) != Displayed(text, false) <==> IsLongText(text)
  {
    if IsLongText(text) {
      assert |Excerpt(text).value| < |text.value|;
    }
  }

  /** The leading run of whitespace that DropSpaces removes is whitespace. */
  lemma {:induction false} DropSpacesDropsSpaces(s: string)
    ensures forall k :: 0 <= k < |s| - |DropSpaces(s)| ==> IsJsSpace(s[k])
    decreases |s|
  {
    if |s| > 0 && IsJsSpace(s[0]) {
      DropSpacesDropsSpaces(s[1..]);
      assert forall k :: 1 <= k < |s| ==> s[k] == s[1..][k - 1];
    }
  }

  /** Splitting text that has a non-space character gives a non-empty
      piece. */
  lemma {:induction false} NonSpaceGivesWord(s: string, k: nat)
    requires k < |s| && !IsJsSpace(s[k])
    ensures NonEmptyCount(SplitOnSpaceRuns(s)) > 0
    decreases |s|
  {
    var pieces := SplitOnSpaceRuns(s);
    if !IsJsSpace(s[0]) {
      assert pieces[0] != "";
    } else {
      var d := DropSpaces(s);
      DropSpacesDropsSpaces(s);
      assert k >= |s| - |d|;
      assert d[k - (|s| - |d|)] == s[k];
      NonSpaceGivesWord(d, k - (|s| - |d|));
      assert pieces[1..] == SplitOnSpaceRuns(d);
    }
  }

  /** Text of whitespace only splits into empty pieces. */
  lemma AllSpaceGivesNoWord(s: string)
    requires |s| > 0
    requires forall k :: 0 <= k < |s| ==> IsJsSpace(s[k])
    ensures NonEmptyCount(SplitOnSpaceRuns(s)) == 0
  {
    assert SplitOnSpaceRuns(s) == [""] + [""];
  }

  /** The word count is 0 exactly when no selection is present or it is all
      whitespace. */
  lemma WordCountZeroIff(text: Option<string>)
    ensures WordCount(text) == 0 <==>
      text.None? || forall k :: 0 <= k < |text.value| ==> IsJsSpace(text.value[k])
  {
    if text.Some? && text.value != "" {
      if forall k :: 0 <= k < |text.value| ==> IsJsSpace(text.value[k]) {
        AllSpaceGivesNoWord(text.value);
      } else {
        var k :| 0 <= k < |text.value| && !IsJsSpace(text.value[k]);
        NonSpaceGivesWord(text.value, k);
      }
    }
  }

  /** There are never more words than characters. */
  lemma {:induction false} WordsAtMostChars(s: string)
    ensures NonEmptyCount(SplitOnSpaceRuns(s)) <= |s|
    decreases |s|
  {
    if |s| > 0 {
      if IsJsSpace(s[0]) {
        WordsAtMostChars(DropSpaces(s));
        assert SplitOnSpaceRuns(s)[1..] == SplitOnSpaceRuns(DropSpaces(s));
      } else {
        var rest := SplitOnSpaceRuns(s[1..]);
        WordsAtMostChars(s[1..]);
        var pieces := SplitOnSpaceRuns(s);
        assert pieces[1..] == rest[1..];
        assert NonEmptyCount(rest) == (if rest[0] != "" then 1 else 0) + NonEmptyCount(rest[1..]);
      }
    }
  }

  /** The number of places where whitespace is directly followed by a
      character that is not whitespace. */
  function SpaceToWordSteps(s: string): nat {
    if |s| < 2 then 0
    else (if IsJsSpace(s[0]) && !IsJsSpace(s[1]) then 1 else 0) + SpaceToWordSteps(s[1..])
  }

  /** The number of words counted where they begin: a non-whitespace first
      character, and each step from whitespace to non-whitespace. */
  function WordStarts(s: string): nat {
    (if |s| > 0 && !IsJsSpace(s[0]) then 1 else 0) + SpaceToWordSteps(s)
  }

  /** Over a leading whitespace run, the steps are the word starts of what
      follows the run. */
  lemma {:induction false} StepsAfterSpaces(s: string)
    requires |s| > 0 && IsJsSpace(s[0])
    ensures SpaceToWordSteps(s) == WordStarts(DropSpaces(s))
    decreases |s|
  {
    if |s| >= 2 {
      if IsJsSpace(s[1]) {
        StepsAfterSpaces(s[1..]);
        assert DropSpaces(s) == DropSpaces(s[1..]);
      } else {
        assert DropSpaces(s) == DropSpaces(s[1..]) == s[1..];
        assert SpaceToWordSteps(s) == 1 + SpaceToWordSteps(s[1..]);
      }
    } else {
      assert DropSpaces(s) == DropSpaces(s[1..]) == [];
    }
  }

  /** The non-empty pieces of the split are the words counted where they
      begin. */
  lemma {:induction false} NonEmptyPiecesAreWordStarts(s: string)
    ensures NonEmptyCount(SplitOnSpaceRuns(s)) == WordStarts(s)
    decreases |s|
  {
    if |s| > 0 {
      if IsJsSpace(s[0]) {
        var d := DropSpaces(s);
        NonEmptyPiecesAreWordStarts(d);
        StepsAfterSpaces(s);
        assert SplitOnSpaceRuns(s)[1..] == SplitOnSpaceRuns(d);
      } else {
        var rest := SplitOnSpaceRuns(s[1..]);
        NonEmptyPiecesAreWordStarts(s[1..]);
        var pieces := SplitOnSpaceRuns(s);
        assert pieces[0] != "" && pieces[1..] == rest[1..];
        assert NonEmptyCount(rest) == (if rest[0] != "" then 1 else 0) + NonEmptyCount(rest[1..]);
        assert SpaceToWordSteps(s) == SpaceToWordSteps(s[1..]);
      }
    }
  }

  /** The word count is the number of places where a word begins. */
  lemma WordCountIsWordStarts(text: Option<string>)
    ensures WordCount(text) == if text.None? then 0 else WordStarts(text.value)
  {
    if text.Some? && text.value != "" {
      NonEmptyPiecesAreWordStarts(text.value);
    }
  }

  lemma WordCountAtMostCharCount(text: Option<string>)
    ensures WordCount(text) <= CharCount(text)
  {
    if text.Some? {
      WordsAtMostChars(text.value);
    }
  }
}
