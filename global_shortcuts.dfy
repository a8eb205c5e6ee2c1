/// System-wide shortcuts on the backend: which stored entries are handed to
/// the operating system at start-up, which command a press runs, what each
/// command does, and how changing one entry unregisters and registers
/// hotkeys. The parser of hotkey strings is a parameter (`parse`, `parses`).
module GlobalShortcuts {
  import opened Wrappers
  import opened AppSettings

  // ---------------------------------------------------------------------------
  // enable_shortcuts
  // ---------------------------------------------------------------------------

  /** An entry registered at start-up: its string, its command and the
      hotkey parsed from the string. */
  datatype Enabled<P> = Enabled(shortcut: string, command: CommandType, hotkey: P)

  /** The entries the operating system sees: bound to a key and not a custom
      prompt, which the front end handles. */
  predicate IsGlobal(entry: ShortcutConfig) {
    entry.shortcut != "" && !entry.command.Prompt?
  }

  function GlobalEntries(shortcuts: seq<ShortcutConfig>): (r: seq<ShortcutConfig>)
    ensures |r| <= |shortcuts|
  {
    if shortcuts == [] then []
    else if IsGlobal(shortcuts[0]) then [shortcuts[0]] + GlobalEntries(shortcuts[1..])
    else GlobalEntries(shortcuts[1..])
  }

  /** The global entries are exactly the stored entries that are bound and
      not custom prompts. */
  lemma {:induction false} GlobalEntriesSpec(shortcuts: seq<ShortcutConfig>)
    ensures forall e :: e in GlobalEntries(shortcuts) <==> e in shortcuts && IsGlobal(e)
  {
    if shortcuts != [] {
      GlobalEntriesSpec(shortcuts[1..]);
      assert shortcuts == [shortcuts[0]] + shortcuts[1..];
    }
  }

  /** The global entries of a concatenation are those of each half, in
      order. */
  lemma {:induction false} GlobalEntriesConcat(a: seq<ShortcutConfig>, b: seq<ShortcutConfig>)
    ensures GlobalEntries(a + b) == GlobalEntries(a) + GlobalEntries(b)
  {
    if a == [] {
      assert a + b == b;
    } else {
      assert (a + b)[1..] == a[1..] + b;
      GlobalEntriesConcat(a[1..], b);
    }
  }

  /** One entry is kept exactly when it is global. */
  lemma GlobalEntriesSingle(e: ShortcutConfig)
    ensures GlobalEntries([e]) == if IsGlobal(e) then [e] else []
  {
    assert [e][1..] == [];
  }

  /** The list `enable_shortcuts` builds: the global entries in stored order,
      each with its parsed hotkey. A stored string that does not parse stops
      the start-up. */
  function EnabledShortcuts<P>(shortcuts: seq<ShortcutConfig>, parse: string -> Option<P>): Result<seq<Enabled<P>>> {
    if shortcuts == [] then Ok([])
    else
      var rest := EnabledShortcuts(shortcuts[1..], parse);
      var s := shortcuts[0];
      if !IsGlobal(s) then rest
      else if parse(s.shortcut).None? then Err("Stored shortcut string should be valid")
      else if rest.Err? then rest
      else Ok([Enabled(s.shortcut, s.command, parse(s.shortcut).value)] + rest.value)
  }

  /** The list is built exactly when every global entry parses; it then
      holds, position by position, each global entry's string, command and
      parsed hotkey. */
  lemma {:induction false} EnabledShortcutsSpec<P>(shortcuts: seq<ShortcutConfig>, parse: string -> Option<P>)
    ensures var r := EnabledShortcuts(shortcuts, parse);
      (r.Ok? <==> forall e :: e in GlobalEntries(shortcuts) ==> parse(e.shortcut).Some?) &&
      (r.Err? ==> r.error == "Stored shortcut string should be valid") &&
      (r.Ok? ==> |r.value| == |GlobalEntries(shortcuts)|) &&
      (r.Ok? ==> forall i :: 0 <= i < |r.value| ==>
        r.value[i].shortcut == GlobalEntries(shortcuts)[i].shortcut &&
        r.value[i].command == GlobalEntries(shortcuts)[i].command &&
        parse(r.value[i].shortcut) == Some(r.value[i].hotkey))
  {
    if shortcuts != [] {
      var s := shortcuts[0];
      var g1 := GlobalEntries(shortcuts[1..]);
      var rest := EnabledShortcuts(shortcuts[1..], parse);
      EnabledShortcutsSpec(shortcuts[1..], parse);
      if !IsGlobal(s) {
        assert GlobalEntries(shortcuts) == g1;
        assert EnabledShortcuts(shortcuts, parse) == rest;
      } else {
        var g := GlobalEntries(shortcuts);
        assert g == [s] + g1;
        var r := EnabledShortcuts(shortcuts, parse);
        if parse(s.shortcut).None? {
          assert r.Err? && g[0] in g;
        } else if rest.Err? {
          assert r == rest;
          var e :| e in g1 && parse(e.shortcut).None?;
          assert e in g;
        } else {
          assert r.value == [Enabled(s.shortcut, s.command, parse(s.shortcut).value)] + rest.value;
          forall e | e in g ensures parse(e.shortcut).Some? {
            if e != s {
              assert e in g1;
            }
          }
          forall i | 0 < i < |r.value|
            ensures r.value[i] == rest.value[i - 1] && g[i] == g1[i - 1]
          {
          }
        }
      }
    }
  }

  /** No custom prompt and no unbound entry is ever registered at start-up. */
  lemma EnabledAreGlobal<P>(shortcuts: seq<ShortcutConfig>, parse: string -> Option<P>)
    requires EnabledShortcuts(shortcuts, parse).Ok?
    ensures forall e :: e in EnabledShortcuts(shortcuts, parse).value ==> e.shortcut != "" && !e.command.Prompt?
  {
    EnabledShortcutsSpec(shortcuts, parse);
    GlobalEntriesSpec(shortcuts);
    var r := EnabledShortcuts(shortcuts, parse).value;
    forall e | e in r ensures e.shortcut != "" && !e.command.Prompt? {
      var i :| 0 <= i < |r| && r[i] == e;
      assert GlobalEntries(shortcuts)[i] in GlobalEntries(shortcuts);
    }
  }

  /** With the default settings, all four system shortcuts are registered, in
      order. */
  lemma DefaultsAllEnabled<P>(parse: string -> Option<P>)
    requires forall i :: 0 <= i < |DefaultSettings().shortcuts| ==> parse(DefaultSettings().shortcuts[i].shortcut).Some?
    ensures EnabledShortcuts(DefaultSettings().shortcuts, parse).Ok?
    ensures var r := EnabledShortcuts(DefaultSettings().shortcuts, parse).value;
      |r| == 4 && r[0].command == ToggleWindow && r[1].command == GetCursorPosition &&
      r[2].command == GetSelectedText && r[3].command == PrintHello
  {
    var d := DefaultSettings().shortcuts;
    DefaultsAreGlobal();
    EnabledShortcutsSpec(d, parse);
    assert forall e :: e in d ==> parse(e.shortcut).Some?;
  }

  lemma DefaultsAreGlobal()
    ensures GlobalEntries(DefaultSettings().shortcuts) == DefaultSettings().shortcuts
  {
    var d := DefaultSettings().shortcuts;
    assert d[1..][1..][1..][1..] == [];
  }

  datatype KeyState = Pressed | Released

  /** The start-up handler: on a press, the command of the first registered
      entry whose hotkey is the one pressed. */
  function OnGlobalShortcut<P(==)>(enabled: seq<Enabled<P>>, hotkey: P, state: KeyState): (r: Option<CommandType>)
    ensures state.Released? ==> r.None?
  {
    if state.Released? || enabled == [] then None
    else if enabled[0].hotkey == hotkey then Some(enabled[0].command)
    else OnGlobalShortcut(enabled[1..], hotkey, state)
  }

  /** A command runs exactly when a registered hotkey is pressed, and it is
      then the command of the first entry with that hotkey. */
  lemma {:induction false} OnGlobalShortcutSpec<P>(enabled: seq<Enabled<P>>, hotkey: P, state: KeyState)
    ensures var r := OnGlobalShortcut(enabled, hotkey, state);
      r.Some? <==> state.Pressed? && exists i :: 0 <= i < |enabled| && enabled[i].hotkey == hotkey
    ensures var r := OnGlobalShortcut(enabled, hotkey, state);
      r.Some? ==> exists i :: (0 <= i < |enabled| && enabled[i].hotkey == hotkey && enabled[i].command == r.value &&
        forall j :: 0 <= j < i ==> enabled[j].hotkey != hotkey)
  {
    if state.Pressed? && enabled != [] && enabled[0].hotkey != hotkey {
      OnGlobalShortcutSpec(enabled[1..], hotkey, state);
      var r := OnGlobalShortcut(enabled[1..], hotkey, state);
      assert forall i :: 0 < i < |enabled| ==> enabled[i] == enabled[1..][i - 1];
      if r.Some? {
        var i :| 0 <= i < |enabled[1..]| && enabled[1..][i].hotkey == hotkey && enabled[1..][i].command == r.value &&
          forall j :: 0 <= j < i ==> enabled[1..][j].hotkey != hotkey;
        assert enabled[i + 1] == enabled[1..][i];
      }
    }
  }

  /** A press never runs a custom prompt through the start-up handler. */
  lemma StartupHandlerRunsNoPrompt<P>(shortcuts: seq<ShortcutConfig>, parse: string -> Option<P>, hotkey: P)
    requires EnabledShortcuts(shortcuts, parse).Ok?
    ensures var r := OnGlobalShortcut(EnabledShortcuts(shortcuts, parse).value, hotkey, Pressed);
      r.Some? ==> !r.value.Prompt?
  {
    EnabledAreGlobal(shortcuts, parse);
    var enabled := EnabledShortcuts(shortcuts, parse).value;
    OnGlobalShortcutSpec(enabled, hotkey, Pressed);
    var r := OnGlobalShortcut(enabled, hotkey, Pressed);
    if r.Some? {
      var i :| 0 <= i < |enabled| && enabled[i].hotkey == hotkey && enabled[i].command == r.value;
      assert enabled[i] in enabled;
    }
  }

  // ---------------------------------------------------------------------------
  // handle_shortcut_commands
  // ---------------------------------------------------------------------------

  /** What a command does outside the application state. */
  datatype Effect =
    | ToggledWindow
    | ReadCursorPosition
    | ShowedSelection(text: string)
    | SelectionFailed(error: string)
    | Pasted(text: string)
    | NothingToPaste(reason: string)
    | NoEffect

  /** The common head of the two messages for nothing to paste. */
  const NoResponse := "No response available to paste "

  /** The effect of a command. `captured` is the result of reading the
      selected text and `lastResponse` the stored answer of the model. The
      `PrintHello` command has no branch in the handler. */
  function CommandEffect(command: CommandType, captured: Result<string>, lastResponse: Option<string>): Effect {
    match command
    case ToggleWindow => ToggledWindow
    case GetCursorPosition => ReadCursorPosition
    case GetSelectedText => if captured.Ok? then ShowedSelection(captured.value) else SelectionFailed(captured.error)
    case PasteOutput =>
      if lastResponse.None? then NothingToPaste(NoResponse + "(no response found)")
      else if lastResponse.value == "" then NothingToPaste(NoResponse + "(empty response)")
      else Pasted(lastResponse.value)
    case Prompt(_, _) => NoEffect
    case PrintHello => NoEffect
  }

  /** A paste happens exactly for `PasteOutput` with a stored, non-empty
      answer, and pastes that answer. */
  lemma PasteOnlyStoredAnswer(command: CommandType, captured: Result<string>, lastResponse: Option<string>)
    ensures CommandEffect(command, captured, lastResponse).Pasted? <==>
      command.PasteOutput? && lastResponse.Some? && lastResponse.value != ""
    ensures CommandEffect(command, captured, lastResponse).Pasted? ==>
      CommandEffect(command, captured, lastResponse).text == lastResponse.value
  {
  }

  /** `handle_shortcut_commands`: toggling the window stores the captured
      selection when it could be read; no other command changes the state. */
  method HandleShortcutCommand(state: AppState, command: CommandType, captured: Result<string>,
                               lastResponse: Option<string>) returns (effect: Effect)
    modifies state
    ensures effect == CommandEffect(command, captured, lastResponse)
    ensures state.selectedText ==
      if command.ToggleWindow? && captured.Ok? then Some(captured.value) else old(state.selectedText)
  {
    if command.ToggleWindow? && captured.Ok? {
      state.selectedText := Some(captured.value);
    }
    effect := CommandEffect(command, captured, lastResponse);
  }

  /** `paste_output`: `paste` is the outcome of typing the text at the
      cursor. */
  function PasteOutputCommand(paste: Outcome): Outcome {
    if paste.Fail? then Fail("Failed to paste text: " + paste.error) else Pass
  }

  /** `paste_recent_response`. */
  function PasteRecentResponse(lastResponse: Option<string>, paste: Outcome): (r: Outcome)
    ensures r.Pass? <==> lastResponse.Some? && lastResponse.value != "" && paste.Pass?
  {
    if lastResponse.None? then Fail(NoResponse + "(no response found)")
    else if lastResponse.value == "" then Fail(NoResponse + "(empty response)")
    else PasteOutputCommand(paste)
  }

  /** A missing answer and an empty answer give different errors, and
      neither is a paste failure. */
  lemma PasteErrorsDistinct(paste: Outcome, text: string)
    requires text != ""
    ensures PasteRecentResponse(None, paste) != PasteRecentResponse(Some(""), paste)
    ensures paste.Fail? ==> PasteRecentResponse(Some(text), paste) != PasteRecentResponse(None, paste)
    ensures paste.Fail? ==> PasteRecentResponse(Some(text), paste) != PasteRecentResponse(Some(""), paste)
  {
    NoResponseHeads();
    if paste.Fail? {
      var c := "Failed to paste text: " + paste.error;
      assert c[0] == "Failed to paste text: "[0] == 'F';
    }
  }

  lemma NoResponseHeads()
    ensures (NoResponse + "(no response found)")[0] == 'N'
    ensures (NoResponse + "(empty response)")[0] == 'N'
    ensures (NoResponse + "(no response found)")[32] == 'n'
    ensures (NoResponse + "(empty response)")[32] == 'e'
  {
  }

  // ---------------------------------------------------------------------------
  // update_shortcut
  // ---------------------------------------------------------------------------

  /** The hotkey strings registered with the operating system, each with the
      command its handler runs. */
  class ShortcutPlugin {
    var handlers: seq<(string, CommandType)>

    constructor (handlers: seq<(string, CommandType)>)
      ensures this.handlers == handlers
    {
      this.handlers := handlers;
    }
  }

  /** The handlers left after unregistering a hotkey. */
  function WithoutHotkey(handlers: seq<(string, CommandType)>, shortcut: string): seq<(string, CommandType)> {
    if handlers == [] then []
    else if handlers[0].0 == shortcut then WithoutHotkey(handlers[1..], shortcut)
    else [handlers[0]] + WithoutHotkey(handlers[1..], shortcut)
  }

  /** Unregistering removes exactly the handlers of that hotkey. */
  lemma {:induction false} WithoutHotkeySpec(handlers: seq<(string, CommandType)>, shortcut: string)
    ensures forall h :: h in WithoutHotkey(handlers, shortcut) <==> h in handlers && h.0 != shortcut
  {
    if handlers != [] {
      WithoutHotkeySpec(handlers[1..], shortcut);
      assert handlers == [handlers[0]] + handlers[1..];
    }
  }

  /** The hotkey `update_shortcut` unregisters: that of the first entry with
      the name, when it is bound and not a custom prompt. */
  function StaleHotkey(shortcuts: seq<ShortcutConfig>, name: string): (r: Option<string>)
    ensures r.Some? <==> (FindByName(shortcuts, name).Some? &&
      FindByName(shortcuts, name).value.shortcut != "" && !FindByName(shortcuts, name).value.command.Prompt?)
    ensures r.Some? ==> r.value == FindByName(shortcuts, name).value.shortcut
  {
    match FindByName(shortcuts, name)
    case None => None
    case Some(existing) => if existing.shortcut != "" && !existing.command.Prompt? then Some(existing.shortcut) else None
  }

  /** A custom prompt's old hotkey is never unregistered, and neither is the
      hotkey of a name that did not exist. */
  lemma StaleHotkeyNeverPrompt(shortcuts: seq<ShortcutConfig>, name: string)
    ensures FindByName(shortcuts, name).None? ==> StaleHotkey(shortcuts, name).None?
    ensures forall i :: (0 <= i < |shortcuts| && shortcuts[i].name == name && shortcuts[i].command.Prompt? &&
      (forall j :: 0 <= j < i ==> shortcuts[j].name != name)) ==> StaleHotkey(shortcuts, name).None?
  {
    forall i | 0 <= i < |shortcuts| && shortcuts[i].name == name && shortcuts[i].command.Prompt? &&
      (forall j :: 0 <= j < i ==> shortcuts[j].name != name)
      ensures StaleHotkey(shortcuts, name).None?
    {
      FirstIndexIs(shortcuts, name, i);
    }
  }

  /** `update_shortcut`. `parses` says which strings the hotkey parser
      accepts; `unregister`, `write`, `register`, `emitMain` and
      `emitSettings` are the outcomes of unregistering the old hotkey,
      writing the file, registering the new hotkey and notifying the two
      windows. */
  method UpdateShortcut(state: AppState, plugin: ShortcutPlugin, config: ShortcutConfig, parses: string -> bool,
                        unregister: Outcome, write: Outcome, register: Outcome,
                        emitMain: Outcome, emitSettings: Outcome) returns (r: Outcome)
    modifies state.manager, plugin
    // An invalid new string, an invalid stored string or a failed
    // unregistration changes nothing.
    ensures !parses(config.shortcut) ==> r == Fail("Invalid shortcut format: " + config.shortcut)
    ensures var stale := StaleHotkey(old(state.manager.settings.shortcuts), config.name);
      (!parses(config.shortcut) ||
       (stale.Some? && (!parses(stale.value) || unregister.Fail?))) ==>
        state.manager.settings == old(state.manager.settings) &&
        state.manager.onDisk == old(state.manager.onDisk) &&
        plugin.handlers == old(plugin.handlers) && r.Fail?
    // Otherwise the entry is upserted and the old hotkey is gone.
    ensures var stale := StaleHotkey(old(state.manager.settings.shortcuts), config.name);
      (parses(config.shortcut) && (stale.Some? ==> parses(stale.value) && unregister.Pass?)) ==>
        state.manager.settings == old(state.manager.settings).(shortcuts := Upsert(old(state.manager.settings.shortcuts), config)) &&
        state.manager.onDisk == (if write.Pass? then state.manager.settings else old(state.manager.onDisk)) &&
        var unregistered := if stale.Some? then WithoutHotkey(old(plugin.handlers), stale.value) else old(plugin.handlers);
        plugin.handlers ==
          (if write.Pass? && !config.command.Prompt? && register.Pass?
           then unregistered + [(config.shortcut, config.command)] else unregistered) &&
        r == (if write.Fail? then write
              else if !config.command.Prompt? && register.Fail? then register
              else if emitMain.Fail? then Fail("Failed to emit shortcuts-updated to main window: " + emitMain.error)
              else if emitSettings.Fail? then Fail("Failed to emit shortcuts-updated to settings window: " + emitSettings.error)
              else Pass)
  {
    if !parses(config.shortcut) {
      return Fail("Invalid shortcut format: " + config.shortcut);
    }
    var shortcuts := state.manager.settings.shortcuts;
    var position := Position(shortcuts, config.name);
    if position.Some? {
      var existing := shortcuts[position.value];
      if existing.shortcut != "" && !existing.command.Prompt? {
        if !parses(existing.shortcut) {
          return Fail("Stored shortcut should be valid");
        }
        if unregister.Fail? {
          return unregister;
        }
        plugin.handlers := WithoutHotkey(plugin.handlers, existing.shortcut);
      }
      shortcuts := shortcuts[position.value := config];
    } else {
      shortcuts := shortcuts + [config];
    }
    r := SaveAndRegister(state, plugin, config, shortcuts, write, register, emitMain, emitSettings);
  }

  /** The part of `update_shortcut` after the old hotkey is gone: the
      shortcuts are saved, the new hotkey is registered unless the entry is a
      custom prompt, and both windows are notified. */
  method SaveAndRegister(state: AppState, plugin: ShortcutPlugin, config: ShortcutConfig,
                         shortcuts: seq<ShortcutConfig>, write: Outcome, register: Outcome,
                         emitMain: Outcome, emitSettings: Outcome) returns (r: Outcome)
    modifies state.manager, plugin
    ensures state.manager.settings == old(state.manager.settings).(shortcuts := shortcuts)
    ensures state.manager.onDisk == if write.Pass? then state.manager.settings else old(state.manager.onDisk)
    ensures plugin.handlers ==
      if write.Pass? && !config.command.Prompt? && register.Pass?
      then old(plugin.handlers) + [(config.shortcut, config.command)] else old(plugin.handlers)
    ensures r ==
      if write.Fail? then write
      else if !config.command.Prompt? && register.Fail? then register
      else if emitMain.Fail? then Fail("Failed to emit shortcuts-updated to main window: " + emitMain.error)
      else if emitSettings.Fail? then Fail("Failed to emit shortcuts-updated to settings window: " + emitSettings.error)
      else Pass
  {
    var saved := state.manager.UpdateShortcuts(shortcuts, write);
    if saved.Fail? {
      return saved;
    }
    if !config.command.Prompt? {
      if register.Fail? {
        return register;
      }
      plugin.handlers := plugin.handlers + [(config.shortcut, config.command)];
    }
    if emitMain.Fail? {
      return Fail("Failed to emit shortcuts-updated to main window: " + emitMain.error);
    }
    if emitSettings.Fail? {
      return Fail("Failed to emit shortcuts-updated to settings window: " + emitSettings.error);
    }
    return Pass;
  }
}
