/// The capture session of the shortcut editor: while editing, key-down and
/// key-up events maintain the held-key set and the displayed candidate
/// (at most two modifiers followed by at most two other keys); saving applies
/// the mode's validation and the reserved-combination table and hands over
/// the sorted keys.
module ShortcutEditor {
  import opened Wrappers
  import opened Strings
  import opened KeySets
  import opened KeyboardUtils

  // ---------------------------------------------------------------------------
  // The reserved-combination table
  // ---------------------------------------------------------------------------

  /** RESERVED_SHORTCUTS: copy, paste, cut, select all, undo, quit and the
      other editing combinations of macOS and Windows/Linux, each an ordered
      pair. */
  const ReservedShortcuts: seq<seq<string>> := [
    ["Command", "C"], ["Command", "V"], ["Command", "X"], ["Command", "A"],
    ["Command", "Z"], ["Command", "Q"],
    ["Control", "C"], ["Control", "V"], ["Control", "X"], ["Control", "A"],
    ["Control", "Z"],
    ["Command", "I"], ["Command", "T"], ["Command", "N"], ["Command", "G"],
    ["Command", "O"], ["Command", "U"], ["Command", "M"], ["Command", "Enter"],
    ["Command", "ArrowLeft"], ["Command", "ArrowRight"], ["Command", "ArrowUp"],
    ["Command", "ArrowDown"],
    ["Command", "0"], ["Command", "1"], ["Command", "2"], ["Command", "3"],
    ["Command", "4"], ["Command", "5"], ["Command", "6"], ["Command", "7"],
    ["Command", "8"], ["Command", "9"]
  ]

  /** Equal length and, position by position, equal after lower-casing. */
  predicate MatchesIgnoringCase(reserved: seq<string>, keys: seq<string>) {
    |reserved| == |keys| && forall i :: 0 <= i < |reserved| ==> Lower(reserved[i]) == Lower(keys[i])
  }

  predicate IsReserved(keys: seq<string>) {
    exists j | 0 <= j < |ReservedShortcuts| :: MatchesIgnoringCase(ReservedShortcuts[j], keys)
  }

  /** Every entry of the table is a pair, so only two-key candidates can be
      reserved. */
  lemma ReservedOnlyPairs(keys: seq<string>)
    ensures IsReserved(keys) ==> |keys| == 2
  {
    assert forall j :: 0 <= j < |ReservedShortcuts| ==> |ReservedShortcuts[j]| == 2;
  }

  /** Control+C is reserved. */
  lemma ControlCReserved()
    ensures IsReserved(["Control", "C"])
  {
    assert MatchesIgnoringCase(ReservedShortcuts[6], ["Control", "C"]);
  }

  // ---------------------------------------------------------------------------
  // The displayed candidate
  // ---------------------------------------------------------------------------

  function Modifiers(keys: seq<string>): seq<string> {
    Filter(keys, IsModifierKey)
  }

  predicate IsOtherKey(key: string) {
    !IsModifierKey(key)
  }

  function NonModifiers(keys: seq<string>): seq<string> {
    Filter(keys, IsOtherKey)
  }

  /** `slice(0, 2)` applied when longer than two. */
  function Take2(keys: seq<string>): (r: seq<string>)
    ensures |r| <= 2 && |r| <= |keys|
    ensures r == keys[..|r|]
  {
    if |keys| > 2 then keys[..2] else keys
  }

  /** The candidate recomputed on every key-down: the first two held modifiers
      followed by the first two held other keys, in insertion order. */
  function Candidate(held: seq<string>): seq<string> {
    Take2(Modifiers(held)) + Take2(NonModifiers(held))
  }

  /** The form every candidate has: no key twice, at most two modifiers, at
      most two other keys, modifiers first. */
  ghost predicate Shaped(keys: seq<string>) {
    NoDup(keys) && |Modifiers(keys)| <= 2 && |NonModifiers(keys)| <= 2 &&
    keys == Modifiers(keys) + NonModifiers(keys)
  }

  lemma NoDupConcat(a: seq<string>, b: seq<string>)
    requires NoDup(a) && NoDup(b)
    requires forall x :: x in a ==> x !in b
    ensures NoDup(a + b)
  {
    forall i, j | 0 <= i < j < |a + b| ensures (a + b)[i] != (a + b)[j] {
      if j < |a| {
        assert (a + b)[i] == a[i] && (a + b)[j] == a[j];
      } else if i < |a| {
        assert (a + b)[i] == a[i] && (a + b)[j] == b[j - |a|];
        assert a[i] in a && b[j - |a|] in b;
      } else {
        assert (a + b)[i] == b[i - |a|] && (a + b)[j] == b[j - |a|];
      }
    }
  }

  /** Filtering a concatenation of modifiers and other keys separates it. */
  lemma SplitFilters(m: seq<string>, n: seq<string>)
    requires forall k :: k in m ==> IsModifierKey(k)
    requires forall k :: k in n ==> !IsModifierKey(k)
    ensures Modifiers(m + n) == m
    ensures NonModifiers(m + n) == n
  {
    FilterConcat(m, n, IsModifierKey);
    FilterConcat(m, n, IsOtherKey);
    FilterKeepsAll(m, IsModifierKey);
    FilterKeepsAll(n, IsOtherKey);
    NoneMatch(m, IsOtherKey);
    NoneMatch(n, IsModifierKey);
  }

  /** The candidate's modifiers are the first two held modifiers and its
      other keys the first two held other keys; it has at most four keys,
      none twice, and only held ones. */
  lemma CandidateShape(held: seq<string>)
    requires NoDup(held)
    ensures Modifiers(Candidate(held)) == Take2(Modifiers(held))
    ensures NonModifiers(Candidate(held)) == Take2(NonModifiers(held))
    ensures Shaped(Candidate(held))
    ensures |Candidate(held)| <= 4
    ensures forall k :: k in Candidate(held) ==> k in held
  {
    var ms, ns := Modifiers(held), NonModifiers(held);
    var m, n := Take2(ms), Take2(ns);
    assert forall k :: k in m ==> k in ms;
    assert forall k :: k in n ==> k in ns;
    SplitFilters(m, n);
    assert NoDup(m) by { assert NoDup(ms); }
    assert NoDup(n) by { assert NoDup(ns); }
    NoDupConcat(m, n);
  }

  lemma {:induction false} NoneMatch(s: seq<string>, p: string -> bool)
    requires forall x :: x in s ==> !p(x)
    ensures Filter(s, p) == []
  {
    if s != [] {
      NoneMatch(s[1..], p);
    }
  }

  /** With at most two keys of each kind held, the candidate holds every held
      key. */
  lemma CandidateKeepsAll(held: seq<string>)
    requires |Modifiers(held)| <= 2 && |NonModifiers(held)| <= 2
    ensures multiset(Candidate(held)) == multiset(held)
  {
    FilterPartition(held, IsModifierKey, IsOtherKey);
  }

  // ---------------------------------------------------------------------------
  // The commit rule
  // ---------------------------------------------------------------------------

  predicate HasModifier(keys: seq<string>) {
    exists i | 0 <= i < |keys| :: IsModifierKey(keys[i])
  }

  predicate HasNonModifier(keys: seq<string>) {
    exists i | 0 <= i < |keys| :: !IsModifierKey(keys[i])
  }

  /** When saveShortcut accepts the candidate: a custom-prompt shortcut needs
      one key and, with more than one, must not be reserved; a system shortcut
      needs two keys, a modifier and a non-modifier, and must not be
      reserved. */
  predicate Accepts(isCustomPrompt: bool, keys: seq<string>) {
    if isCustomPrompt then |keys| >= 1 && (|keys| > 1 ==> !IsReserved(keys))
    else |keys| >= 2 && HasModifier(keys) && HasNonModifier(keys) && !IsReserved(keys)
  }

  /** In system mode the length check is implied by the other two: a
      candidate is accepted iff it holds a modifier and a non-modifier and is
      not reserved. */
  lemma AcceptsSystemIff(keys: seq<string>)
    ensures Accepts(false, keys) <==>
      |Modifiers(keys)| >= 1 && |NonModifiers(keys)| >= 1 && !IsReserved(keys)
  {
    if |Modifiers(keys)| >= 1 && |NonModifiers(keys)| >= 1 {
      var a, b := Modifiers(keys)[0], NonModifiers(keys)[0];
      assert a in keys && IsModifierKey(a) && b in keys && !IsModifierKey(b);
      var i :| 0 <= i < |keys| && keys[i] == a;
      var j :| 0 <= j < |keys| && keys[j] == b;
      assert i != j;
      assert |keys| >= 2;
    }
    if HasModifier(keys) && HasNonModifier(keys) {
      var i :| 0 <= i < |keys| && IsModifierKey(keys[i]);
      var j :| 0 <= j < |keys| && !IsModifierKey(keys[j]);
      assert keys[i] in Modifiers(keys) && keys[j] in NonModifiers(keys);
    }
  }

  /** In custom-prompt mode a candidate is accepted iff it is non-empty and
      not reserved: skipping the check for a single key changes nothing,
      since a single key is never reserved. */
  lemma AcceptsCustomPromptIff(keys: seq<string>)
    ensures Accepts(true, keys) <==> |keys| >= 1 && !IsReserved(keys)
  {
    ReservedOnlyPairs(keys);
  }

  /** Every system shortcut would also be accepted for a custom prompt. */
  lemma SystemAcceptsOnlyWhatCustomAccepts(keys: seq<string>)
    ensures Accepts(false, keys) ==> Accepts(true, keys)
  {
  }

  /** The keys handed over for a system shortcut start with a modifier, end
      with a non-modifier and are the candidate's keys. */
  lemma CommittedSystemShortcut(keys: seq<string>)
    requires Accepts(false, keys)
    ensures var s := SortKeys(keys);
      |s| == |keys| && multiset(s) == multiset(keys) &&
      IsModifierKey(s[0]) && !IsModifierKey(s[|s| - 1])
  {
    var i :| 0 <= i < |keys| && IsModifierKey(keys[i]);
    var j :| 0 <= j < |keys| && !IsModifierKey(keys[j]);
    SortedEnds(keys, i, j);
    SortKeysPermutes(keys);
  }

  /** Keys holding a modifier and a non-modifier sort to a sequence that
      starts with a modifier and ends with a non-modifier. */
  lemma SortedEnds(keys: seq<string>, i: nat, j: nat)
    requires i < |keys| && IsModifierKey(keys[i])
    requires j < |keys| && !IsModifierKey(keys[j])
    ensures var s := SortKeys(keys);
      |s| == |keys| && IsModifierKey(s[0]) && !IsModifierKey(s[|s| - 1])
  {
    SortKeysModifierEnds(keys, i, j);
  }

  lemma LoneModifierRejected()
    ensures !Accepts(false, ["Control"])
  {
  }

  lemma ReservedPairRejected()
    ensures !Accepts(false, ["Control", "C"])
  {
    ControlCReserved();
  }

  lemma SingleKeyPromptAccepted()
    ensures Accepts(true, ["F"]) && SortKeys(["F"]) == ["F"]
  {
  }

  // ---------------------------------------------------------------------------
  // The session
  // ---------------------------------------------------------------------------

  class Editor {
    /** Whether the editor edits a custom-prompt shortcut. */
    const isCustomPrompt: bool
    var isEditing: bool
    var currentKeys: seq<string>
    /** The held-key set, in insertion order. */
    var pressed: seq<string>

    ghost predicate Valid()
      reads this
    {
      NoDup(pressed) && Shaped(currentKeys) && (!isEditing ==> currentKeys == [])
    }

    constructor (isCustomPrompt: bool)
      ensures this.isCustomPrompt == isCustomPrompt
      ensures !isEditing && currentKeys == [] && pressed == []
      ensures Valid()
    {
      this.isCustomPrompt := isCustomPrompt;
      isEditing := false;
      currentKeys := [];
      pressed := [];
    }

    /** startEditing: the held set is left as it is. */
    method StartEditing()
      requires Valid()
      modifies this
      ensures Valid()
      ensures isEditing && currentKeys == [] && pressed == old(pressed)
    {
      isEditing := true;
      currentKeys := [];
    }

    /** cancelEditing: no shortcut is handed over and the held set is left as
        it is. */
    method CancelEditing()
      requires Valid()
      modifies this
      ensures Valid()
      ensures !isEditing && currentKeys == [] && pressed == old(pressed)
    {
      isEditing := false;
      currentKeys := [];
    }

    /** The key-down handler: while editing, the event is prevented, the key
        joins the held set and the candidate is recomputed; otherwise nothing
        changes. */
    method KeyDown(code: string) returns (prevented: bool)
      requires Valid()
      modifies this
      ensures Valid()
      ensures prevented == old(isEditing) && isEditing == old(isEditing)
      ensures old(isEditing) ==>
        pressed == Add(old(pressed), NormalizeKey(code)) && currentKeys == Candidate(pressed)
      ensures !old(isEditing) ==> pressed == old(pressed) && currentKeys == old(currentKeys)
      ensures |currentKeys| <= 4
    {
      if !isEditing {
        return false;
      }
      prevented := true;
      var key := NormalizeKey(code);
      pressed := Add(pressed, key);
      currentKeys := Candidate(pressed);
      CandidateShape(pressed);
    }

    /** The key-up handler: while editing, the key leaves the held set; the
        candidate is never touched. */
    method KeyUp(code: string)
      requires Valid()
      modifies this
      ensures Valid()
      ensures isEditing == old(isEditing) && currentKeys == old(currentKeys)
      ensures pressed == if old(isEditing) then Remove(old(pressed), NormalizeKey(code)) else old(pressed)
    {
      if !isEditing {
        return;
      }
      var key := NormalizeKey(code);
      pressed := Remove(pressed, key);
    }

    /** saveShortcut: returns the keys handed to `onChange`, if any. A
        rejected save changes nothing. */
    method SaveShortcut() returns (saved: Option<seq<string>>)
      requires Valid()
      modifies this
      ensures Valid()
      ensures saved.Some? <==> old(isEditing) && Accepts(isCustomPrompt, old(currentKeys))
      ensures saved.Some? ==> saved.value == SortKeys(old(currentKeys)) && !isEditing && currentKeys == []
      ensures saved.None? ==> isEditing == old(isEditing) && currentKeys == old(currentKeys)
      ensures pressed == old(pressed)
    {
      if !isEditing {
        return None;
      }
      if isCustomPrompt {
        if |currentKeys| < 1 {
          return None;
        }
      } else {
        if |currentKeys| < 2 {
          return None;
        }
        var hasModifier := HasModifier(currentKeys);
        var hasNonModifier := HasNonModifier(currentKeys);
        if !hasModifier || !hasNonModifier {
          return None;
        }
      }
      if !isCustomPrompt || |currentKeys| > 1 {
        if IsReserved(currentKeys) {
          return None;
        }
      }
      var sortedKeys := SortKeys(currentKeys);
      saved := Some(sortedKeys);
      isEditing := false;
      currentKeys := [];
    }

    /** The unmount cleanup: cancels an open session. */
    method Unmount()
      requires Valid()
      modifies this
      ensures Valid()
      ensures !isEditing && currentKeys == [] && pressed == old(pressed)
    {
      if isEditing {
        CancelEditing();
      }
    }
  }

  // ---------------------------------------------------------------------------
  // Sessions
  // ---------------------------------------------------------------------------

  /** Pressing Shift, Alt and P in a system-shortcut session and saving hands
      over Alt, Shift, P, which the wire format stores as `alt+shift+p`. */
  method ShiftAltPSession() returns (saved: Option<seq<string>>)
    ensures saved == Some(["Alt", "Shift", "P"])
    ensures KeysArrayToTauri(saved.value) == "alt+shift+p"
  {
    var e := new Editor(false);
    e.StartEditing();
    NormalizeSideVariants();
    NormalizeKeyP();
    AddShiftAltP();
    var _ := e.KeyDown("ShiftLeft");
    var _ := e.KeyDown("AltLeft");
    var _ := e.KeyDown("KeyP");
    assert e.pressed == ["Shift", "Alt", "P"];
    CandidateShiftAltP();
    AcceptShiftAltP();
    saved := e.SaveShortcut();
    SortShiftAltP();
    EncodeAltShiftP();
  }

  lemma EncodeAltShiftP()
    ensures KeysArrayToTauri(["Alt", "Shift", "P"]) == "alt+shift+p"
  {
    EncodeThreeKeys("Alt", "Shift", "P");
    assert EncodeKey("P") == "p";
  }

  lemma AddShiftAltP()
    ensures Add([], "Shift") == ["Shift"]
    ensures Add(["Shift"], "Alt") == ["Shift", "Alt"]
    ensures Add(["Shift", "Alt"], "P") == ["Shift", "Alt", "P"]
  {
    assert "Alt" != "Shift";
    assert "P" != "Shift" && "P" != "Alt";
  }

  lemma NormalizeKeyP()
    ensures NormalizeKey("KeyP") == "P"
  {
    assert StartsWith("KeyP", "Key");
    assert "KeyP"[3..] == "P";
  }

  lemma CandidateShiftAltP()
    ensures Candidate(["Shift", "Alt", "P"]) == ["Shift", "Alt", "P"]
  {
    assert !IsModifierKey("P");
    assert Modifiers(["Shift", "Alt", "P"]) == ["Shift", "Alt"];
    assert NonModifiers(["Shift", "Alt", "P"]) == ["P"];
  }

  lemma AcceptShiftAltP()
    ensures Accepts(false, ["Shift", "Alt", "P"])
  {
    assert IsModifierKey(["Shift", "Alt", "P"][0]);
    assert !IsModifierKey(["Shift", "Alt", "P"][2]);
    ReservedOnlyPairs(["Shift", "Alt", "P"]);
  }

  lemma SortShiftAltP()
    ensures SortKeys(["Shift", "Alt", "P"]) == ["Alt", "Shift", "P"]
  {
    CompareKeysIsRankOrder("P", "Alt");
    CompareKeysIsRankOrder("Alt", "Shift");
    CompareKeysIsRankOrder("P", "Shift");
    assert SortKeys(["P"]) == ["P"];
    assert ["Alt", "P"][1..] == ["P"];
    assert SortKeys(["Alt", "P"]) == Insert("Alt", ["P"]) == ["Alt", "P"];
    assert ["Shift", "Alt", "P"][1..] == ["Alt", "P"];
    assert Insert("Shift", ["P"]) == ["Shift", "P"];
    assert Insert("Shift", ["Alt", "P"]) == ["Alt"] + Insert("Shift", ["P"]);
  }

  /** A key released while no session is open stays in the held set: after
      pressing A, cancelling, releasing A and starting again, pressing Shift
      shows Shift and A. */
  method StaleHeldKeySession() returns (shown: seq<string>)
    ensures shown == ["Shift", "A"]
  {
    var e := new Editor(false);
    e.StartEditing();
    NormalizeSideVariants();
    NormalizeKeyA();
    assert Add([], "A") == ["A"];
    assert Add(["A"], "Shift") == ["A", "Shift"] by { assert "Shift" != "A"; }
    var _ := e.KeyDown("KeyA");
    e.CancelEditing();
    e.KeyUp("KeyA");
    e.StartEditing();
    var _ := e.KeyDown("ShiftLeft");
    assert e.pressed == ["A", "Shift"];
    CandidateAShift();
    shown := e.currentKeys;
  }

  lemma NormalizeKeyA()
    ensures NormalizeKey("KeyA") == "A"
  {
    assert StartsWith("KeyA", "Key");
    assert "KeyA"[3..] == "A";
  }

  lemma CandidateAShift()
    ensures Candidate(["A", "Shift"]) == ["Shift", "A"]
  {
    assert !IsModifierKey("A");
    assert Modifiers(["A", "Shift"]) == ["Shift"];
    assert NonModifiers(["A", "Shift"]) == ["A"];
  }
}
