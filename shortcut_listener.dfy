/// The front-end listener that runs custom prompts bound to key combinations
/// while the main window has focus. It keeps the held keys in an
/// insertion-ordered set, and on every press looks up the sorted held set, in
/// wire form, among the stored entries whose command is a prompt.
module ShortcutListener {
  import opened Wrappers
  import opened Strings
  import opened KeySets
  import opened KeyboardUtils
  import opened AppSettings

  /** An entry that a press encoding to `shortcut` runs. */
  predicate RunsOn(entry: ShortcutConfig, shortcut: string) {
    entry.shortcut == shortcut && entry.command.Prompt?
  }

  /** `shortcuts.find(...)`: the name of the first custom prompt bound to
      `shortcut`. */
  function FirstPromptMatch(shortcuts: seq<ShortcutConfig>, shortcut: string): (r: Option<string>)
    ensures r.None? <==> forall i :: 0 <= i < |shortcuts| ==> !RunsOn(shortcuts[i], shortcut)
    ensures r.Some? ==> exists i :: (0 <= i < |shortcuts| && RunsOn(shortcuts[i], shortcut) &&
      shortcuts[i].name == r.value && forall j :: 0 <= j < i ==> !RunsOn(shortcuts[j], shortcut))
  {
    if shortcuts == [] then None
    else if RunsOn(shortcuts[0], shortcut) then Some(shortcuts[0].name)
    else
      var r := FirstPromptMatch(shortcuts[1..], shortcut);
      assert forall i :: 0 < i < |shortcuts| ==> shortcuts[i] == shortcuts[1..][i - 1];
      if r.Some? then
        var i :| 0 <= i < |shortcuts[1..]| && RunsOn(shortcuts[1..][i], shortcut) &&
          shortcuts[1..][i].name == r.value && forall j :: 0 <= j < i ==> !RunsOn(shortcuts[1..][j], shortcut);
        assert shortcuts[i + 1] == shortcuts[1..][i];
        assert forall j :: 0 <= j < i + 1 ==> !RunsOn(shortcuts[j], shortcut);
        r
      else r
  }

  /** The wire form of a held set of keys. */
  function HeldFormat(held: seq<string>): string {
    KeysArrayToTauri(SortKeys(held))
  }

  /** When the sorted held set has one key, the held set is the key just
      pressed, so the single-key lookup searches for the same string as the
      first lookup. */
  lemma SingleKeyLookupRepeatsFirst(held: seq<string>, key: string)
    requires key in held
    requires |SortKeys(held)| == 1
    ensures KeysArrayToTauri([key]) == HeldFormat(held)
  {
    SortKeysSpec(held);
    assert held == [held[0]];
    assert SortKeys([key]) == [key];
  }

  class Listener {
    /** The stored entries the listener was attached with. */
    var shortcuts: seq<ShortcutConfig>
    /** The prompt in progress, if any, as last handed to the hook. */
    var processingPrompt: Option<string>
    /** The keys held down, in the order they were pressed. */
    var pressed: seq<string>

    ghost predicate Valid()
      reads this
    {
      NoDup(pressed)
    }

    constructor (shortcuts: seq<ShortcutConfig>, processingPrompt: Option<string>)
      ensures Valid()
      ensures this.shortcuts == shortcuts && this.processingPrompt == processingPrompt && pressed == []
    {
      this.shortcuts := shortcuts;
      this.processingPrompt := processingPrompt;
      pressed := [];
    }

    /** Re-attaching, whenever the stored entries or the prompt in progress
        change, runs the old listeners' cleanup and the new set-up, both of
        which clear the held keys. */
    method Attach(shortcuts: seq<ShortcutConfig>, processingPrompt: Option<string>)
      modifies this
      ensures Valid()
      ensures this.shortcuts == shortcuts && this.processingPrompt == processingPrompt && pressed == []
    {
      this.shortcuts := shortcuts;
      this.processingPrompt := processingPrompt;
      pressed := [];
    }

    /** A new value of the prompt in progress. The key-down handler depends on
        it, so a different value re-attaches the listeners and the held keys
        are forgotten; the same value changes nothing. */
    method SetProcessingPrompt(processingPrompt: Option<string>)
      requires Valid()
      modifies this
      ensures Valid()
      ensures shortcuts == old(shortcuts) && this.processingPrompt == processingPrompt
      ensures pressed == if processingPrompt == old(this.processingPrompt) then old(pressed) else []
    {
      if processingPrompt != this.processingPrompt {
        Attach(shortcuts, processingPrompt);
      }
    }

    /** Detaching clears the held keys. */
    method Detach()
      modifies this
      ensures Valid()
      ensures shortcuts == old(shortcuts) && processingPrompt == old(processingPrompt) && pressed == []
    {
      pressed := [];
    }

    /** A key press. An event already handled, aimed at a text field or
        arriving while a prompt is running is ignored and the key is not
        recorded. Otherwise the key joins the held set and the first custom
        prompt bound to the sorted held set runs; `executed` is its name. */
    method KeyDown(code: string, defaultPrevented: bool, targetIsTextField: bool)
      returns (executed: Option<string>)
      requires Valid()
      modifies this
      ensures Valid()
      ensures shortcuts == old(shortcuts) && processingPrompt == old(processingPrompt)
      ensures defaultPrevented || targetIsTextField || processingPrompt.Some? ==>
        pressed == old(pressed) && executed.None?
      ensures !defaultPrevented && !targetIsTextField && processingPrompt.None? ==>
        pressed == Add(old(pressed), NormalizeKey(code)) &&
        executed == FirstPromptMatch(shortcuts, HeldFormat(pressed))
    {
      if defaultPrevented {
        return None;
      }
      if targetIsTextField {
        return None;
      }
      if processingPrompt.Some? {
        return None;
      }
      var key := NormalizeKey(code);
      pressed := Add(pressed, key);
      var currentKeys := SortKeys(pressed);
      var currentFormat := KeysArrayToTauri(currentKeys);
      executed := FirstPromptMatch(shortcuts, currentFormat);
      if executed.Some? {
        return;
      }
      if |currentKeys| == 1 {
        SingleKeyLookupRepeatsFirst(pressed, key);
        var singleKeyFormat := KeysArrayToTauri([key]);
        executed := FirstPromptMatch(shortcuts, singleKeyFormat);
      }
    }

    /** A key release always leaves the held set, whatever the focus. */
    method KeyUp(code: string)
      requires Valid()
      modifies this
      ensures Valid()
      ensures shortcuts == old(shortcuts) && processingPrompt == old(processingPrompt)
      ensures pressed == Remove(old(pressed), NormalizeKey(code))
    {
      pressed := Remove(pressed, NormalizeKey(code));
    }
  }

  /** The order in which keys of different ranks are pressed does not matter:
      two held sets whose keys of each rank arrived in the same order run the
      same prompt. */
  lemma PressOrderIrrelevant(shortcuts: seq<ShortcutConfig>, a: seq<string>, b: seq<string>)
    requires forall r: nat :: RankFilter(a, r) == RankFilter(b, r)
    ensures FirstPromptMatch(shortcuts, HeldFormat(a)) == FirstPromptMatch(shortcuts, HeldFormat(b))
  {
    SortKeysOrderIndependent(a, b);
  }

  /** Holding the keys of a stored prompt's sorted shortcut runs a prompt, the
      first one bound to that string. */
  lemma HeldCommittedKeysRun(shortcuts: seq<ShortcutConfig>, i: nat, committed: seq<string>)
    requires i < |shortcuts|
    requires shortcuts[i].command.Prompt?
    requires shortcuts[i].shortcut == HeldFormat(committed)
    ensures FirstPromptMatch(shortcuts, HeldFormat(committed)).Some?
  {
    assert RunsOn(shortcuts[i], HeldFormat(committed));
  }

  // ---------------------------------------------------------------------------
  // Held sets and what they run
  // ---------------------------------------------------------------------------

  /** A prompt bound to `ctrl+shift+s`. */
  function Summarize(): ShortcutConfig {
    ShortcutConfig("Summarize", "ctrl+shift+s", Prompt("openai", "Summarize: {{selectedText}}"))
  }

  lemma NormalizeKeyS()
    ensures NormalizeKey("KeyS") == "S"
  {
    assert StartsWith("KeyS", "Key");
    assert "KeyS"[3..] == "S";
  }

  lemma HeldShiftControlS()
    ensures Add([], "Shift") == ["Shift"]
    ensures Add(["Shift"], "Control") == ["Shift", "Control"]
    ensures Add(["Shift", "Control"], "S") == ["Shift", "Control", "S"]
  {
    assert "Control" != "Shift";
    assert "S" != "Shift" && "S" != "Control";
  }

  lemma SortShiftControlS()
    ensures SortKeys(["Shift", "Control", "S"]) == ["Control", "Shift", "S"]
  {
    CompareKeysIsRankOrder("S", "Control");
    CompareKeysIsRankOrder("Control", "Shift");
    CompareKeysIsRankOrder("S", "Shift");
    assert SortKeys(["S"]) == ["S"];
    assert ["Control", "S"][1..] == ["S"];
    assert SortKeys(["Control", "S"]) == Insert("Control", ["S"]) == ["Control", "S"];
    assert ["Shift", "Control", "S"][1..] == ["Control", "S"];
    assert Insert("Shift", ["S"]) == ["Shift", "S"];
    assert Insert("Shift", ["Control", "S"]) == ["Control"] + Insert("Shift", ["S"]);
  }

  lemma FormatShiftControlS()
    ensures HeldFormat(["Shift", "Control", "S"]) == "ctrl+shift+s"
  {
    SortShiftControlS();
    EncodeThreeKeys("Control", "Shift", "S");
    assert EncodeKey("S") == "s";
  }

  lemma FormatS()
    ensures HeldFormat(["S"]) == "s"
    ensures KeysArrayToTauri(["S"]) == "s"
  {
    assert SortKeys(["S"]) == ["S"];
    assert EncodeKey("S") == "s";
    assert seq(1, i requires 0 <= i < 1 => EncodeKey(["S"][i])) == ["s"];
  }

  /** Pressing Shift, Control and S, with no prompt in progress, runs the
      prompt bound to `ctrl+shift+s` on the third key. */
  method SummarizeSession() returns (ran: Option<string>)
    ensures ran == Some("Summarize")
  {
    var l := new Listener([Summarize()], None);
    NormalizeSideVariants();
    NormalizeKeyS();
    HeldShiftControlS();
    var _ := l.KeyDown("ShiftLeft", false, false);
    var _ := l.KeyDown("ControlRight", false, false);
    ran := l.KeyDown("KeyS", false, false);
    assert l.pressed == ["Shift", "Control", "S"];
    FormatShiftControlS();
    assert RunsOn(Summarize(), "ctrl+shift+s");
  }

  /** Keys held while a prompt starts are forgotten: Shift and Control are
      pressed, a prompt starts (S is then ignored) and finishes, and S pressed
      again is the only key held, so `s` is looked up and nothing runs,
      although Shift and Control may still be down. */
  method BusyPeriodForgetsHeldKeys() returns (busy: Option<string>, ran: Option<string>)
    ensures busy.None?
    ensures ran.None?
  {
    var l := new Listener([Summarize()], None);
    NormalizeSideVariants();
    NormalizeKeyS();
    HeldShiftControlS();
    var _ := l.KeyDown("ShiftLeft", false, false);
    var _ := l.KeyDown("ControlRight", false, false);
    assert l.pressed == ["Shift", "Control"];
    l.SetProcessingPrompt(Some("Translate"));
    assert l.pressed == [];
    busy := l.KeyDown("KeyS", false, false);
    l.SetProcessingPrompt(None);
    ran := l.KeyDown("KeyS", false, false);
    assert Add([], "S") == ["S"];
    assert l.pressed == ["S"];
    FormatS();
    assert !RunsOn(Summarize(), "s");
  }

  /** A prompt bound to the single key `g`. */
  function Glossary(): ShortcutConfig {
    ShortcutConfig("Glossary", "g", Prompt("openai", "Define: {{selectedText}}"))
  }

  lemma FormatG()
    ensures HeldFormat(["G"]) == "g"
    ensures HeldFormat(["Shift", "G"]) == "shift+g"
  {
    assert SortKeys(["G"]) == ["G"];
    assert EncodeKey("G") == "g";
    assert seq(1, i requires 0 <= i < 1 => EncodeKey(["G"][i])) == ["g"];
    assert CompareKeys("G", "Shift") == 1;
    assert ["Shift", "G"][1..] == ["G"];
    assert SortKeys(["Shift", "G"]) == ["Shift", "G"];
    assert seq(2, i requires 0 <= i < 2 => EncodeKey(["Shift", "G"][i])) == ["shift", "g"];
    assert Join(["shift", "g"], '+') == "shift+g" by {
      assert ["shift", "g"][1..] == ["g"];
    }
  }

  /** A single-key prompt runs when its key is the only one held, and not
      when a modifier is held with it. */
  lemma SingleKeyPromptRunsAlone()
    ensures FirstPromptMatch([Glossary()], HeldFormat(["G"])) == Some("Glossary")
    ensures FirstPromptMatch([Glossary()], HeldFormat(["Shift", "G"])).None?
  {
    FormatG();
    assert |"shift+g"| != |"g"|;
    assert !RunsOn([Glossary()][0], "shift+g");
  }

  /** A custom prompt whose binding was cleared (shortcut `""`) still runs on
      a key whose code is empty, since such a key alone encodes to `""`. */
  lemma ClearedPromptRunsOnEmptyCode(name: string, provider: string, template: string)
    ensures FirstPromptMatch([ShortcutConfig(name, "", Prompt(provider, template))],
                             HeldFormat(Add([], NormalizeKey("")))) == Some(name)
  {
    assert !StartsWith("", "Key") && !StartsWith("", "Digit") && !StartsWith("", "Numpad");
    assert NormalizeKey("") == "";
    assert Add([], "") == [""];
    assert SortKeys([""]) == [""];
    assert EncodeKey("") == "";
    assert seq(1, i requires 0 <= i < 1 => EncodeKey([""][i])) == [""];
  }
}
