/// The backend's settings store: provider configurations, shortcut entries
/// and window preferences, held in memory and mirrored in settings.json, and
/// the application state that owns it.
module AppSettings {
  import opened Wrappers

  // ---------------------------------------------------------------------------
  // Records
  // ---------------------------------------------------------------------------

  datatype ProviderConfig = ProviderConfig(
    name: string,
    provider: string,
    apiKey: string,
    model: string,
    temperature: real,
    maxTokens: nat)

  /** What a shortcut does. `PasteOutput` is the variant the global handler
      matches; the definition of the enum lists `PrintHello` instead, and both
      are kept. */
  datatype CommandType =
    | ToggleWindow
    | GetCursorPosition
    | GetSelectedText
    | PrintHello
    | PasteOutput
    | Prompt(providerName: string, prompt: string)

  datatype ShortcutConfig = ShortcutConfig(name: string, shortcut: string, command: CommandType)

  datatype UIConfig = UIConfig(
    theme: string,
    windowPosition: Option<(int, int)>,
    windowSize: Option<(nat, nat)>)

  datatype Settings = Settings(
    llmProviders: seq<ProviderConfig>,
    shortcuts: seq<ShortcutConfig>,
    ui: UIConfig)

  // ---------------------------------------------------------------------------
  // Defaults
  // ---------------------------------------------------------------------------

  function DefaultUIConfig(): UIConfig {
    UIConfig("light", None, None)
  }

  function DefaultSettings(): Settings {
    Settings(
      [],
      [ ShortcutConfig("Toggle Window", "cmd+shift+k", ToggleWindow),
        ShortcutConfig("Get Cursor Position", "shift+k", GetCursorPosition),
        ShortcutConfig("Get Selected Text", "shift+j", GetSelectedText),
        ShortcutConfig("Print Hello", "shift+h", PrintHello) ],
      DefaultUIConfig())
  }

  /** The defaults: no provider; four system shortcuts with distinct names,
      non-empty shortcut strings and no custom prompt; the light theme with no
      window position or size. */
  lemma DefaultSettingsShape()
    ensures DefaultSettings().llmProviders == []
    ensures |DefaultSettings().shortcuts| == 4
    ensures forall i :: 0 <= i < |DefaultSettings().shortcuts| ==>
      DefaultSettings().shortcuts[i].shortcut != "" && !DefaultSettings().shortcuts[i].command.Prompt?
    ensures forall i, j :: 0 <= i < j < |DefaultSettings().shortcuts| ==>
      DefaultSettings().shortcuts[i].name != DefaultSettings().shortcuts[j].name
    ensures DefaultSettings().ui.theme == "light"
    ensures DefaultSettings().ui.windowPosition.None? && DefaultSettings().ui.windowSize.None?
  {
  }

  // ---------------------------------------------------------------------------
  // Shortcut entries by name
  // ---------------------------------------------------------------------------

  /** The position of the first entry with the name. */
  function FirstIndexOfName(shortcuts: seq<ShortcutConfig>, name: string): (r: Option<nat>)
    ensures r.None? <==> forall i :: 0 <= i < |shortcuts| ==> shortcuts[i].name != name
    ensures r.Some? ==> r.value < |shortcuts| && shortcuts[r.value].name == name
    ensures r.Some? ==> forall i :: 0 <= i < r.value ==> shortcuts[i].name != name
  {
    if shortcuts == [] then None
    else if shortcuts[0].name == name then Some(0)
    else match FirstIndexOfName(shortcuts[1..], name)
      case None => None
      case Some(i) => Some(i + 1)
  }

  /** The position the search stops at is determined by the entries. */
  lemma FirstIndexIs(shortcuts: seq<ShortcutConfig>, name: string, v: nat)
    requires v < |shortcuts| && shortcuts[v].name == name
    requires forall j :: 0 <= j < v ==> shortcuts[j].name != name
    ensures FirstIndexOfName(shortcuts, name) == Some(v)
  {
    var r := FirstIndexOfName(shortcuts, name);
    assert r.Some?;
    assert !(r.value < v);
    assert !(v < r.value);
  }

  /** `iter().position(|s| s.name == name)`, and the search of
      `iter_mut().find` by name. */
  method Position(shortcuts: seq<ShortcutConfig>, name: string) returns (pos: Option<nat>)
    ensures pos == FirstIndexOfName(shortcuts, name)
  {
    var i := 0;
    while i < |shortcuts|
      invariant 0 <= i <= |shortcuts|
      invariant forall j :: 0 <= j < i ==> shortcuts[j].name != name
    {
      if shortcuts[i].name == name {
        return Some(i);
      }
      i := i + 1;
    }
    return None;
  }

  /** The first entry with the name, as `iter().find`. */
  function FindByName(shortcuts: seq<ShortcutConfig>, name: string): Option<ShortcutConfig> {
    match FirstIndexOfName(shortcuts, name)
    case None => None
    case Some(i) => Some(shortcuts[i])
  }

  /** Replaces the first entry that has the new entry's name, or appends the
      new entry. */
  function Upsert(shortcuts: seq<ShortcutConfig>, entry: ShortcutConfig): seq<ShortcutConfig> {
    match FirstIndexOfName(shortcuts, entry.name)
    case Some(i) => shortcuts[i := entry]
    case None => shortcuts + [entry]
  }

  /** An existing name is replaced in place at its first position, keeping the
      length; a new name is appended; every other entry keeps its place. */
  lemma UpsertShape(shortcuts: seq<ShortcutConfig>, entry: ShortcutConfig)
    ensures FirstIndexOfName(shortcuts, entry.name).Some? ==>
      var i := FirstIndexOfName(shortcuts, entry.name).value;
      |Upsert(shortcuts, entry)| == |shortcuts| && Upsert(shortcuts, entry)[i] == entry &&
      forall j :: 0 <= j < |shortcuts| && j != i ==> Upsert(shortcuts, entry)[j] == shortcuts[j]
    ensures FirstIndexOfName(shortcuts, entry.name).None? ==>
      Upsert(shortcuts, entry) == shortcuts + [entry]
  {
  }

  /** After an upsert, looking the name up finds the new entry, and looking up
      any other name finds what it found before. */
  lemma UpsertLookup(shortcuts: seq<ShortcutConfig>, entry: ShortcutConfig, name: string)
    ensures FindByName(Upsert(shortcuts, entry), name) ==
      if name == entry.name then Some(entry) else FindByName(shortcuts, name)
  {
    var r := Upsert(shortcuts, entry);
    var at := FirstIndexOfName(shortcuts, entry.name);
    var i := if at.Some? then at.value else |shortcuts|;
    assert |r| > i && r[i] == entry;
    assert forall j :: 0 <= j < |shortcuts| && j != i ==> r[j] == shortcuts[j];
    if name == entry.name {
      FirstIndexIs(r, name, i);
    } else {
      match FirstIndexOfName(shortcuts, name)
      case None =>
        assert forall j :: 0 <= j < |r| ==> r[j].name != name;
      case Some(k) =>
        FirstIndexIs(r, name, k);
    }
  }

  /** Upserting the same entry twice is the same as upserting it once. */
  lemma UpsertIdempotent(shortcuts: seq<ShortcutConfig>, entry: ShortcutConfig)
    ensures Upsert(Upsert(shortcuts, entry), entry) == Upsert(shortcuts, entry)
  {
    var r := Upsert(shortcuts, entry);
    var at := FirstIndexOfName(shortcuts, entry.name);
    var i := if at.Some? then at.value else |shortcuts|;
    assert |r| > i && r[i] == entry;
    assert forall j :: 0 <= j < i ==> r[j] == shortcuts[j];
    FirstIndexIs(r, entry.name, i);
  }

  // ---------------------------------------------------------------------------
  // Provider configurations by name
  // ---------------------------------------------------------------------------

  /** `retain(|p| p.name != name)`. */
  function WithoutName(providers: seq<ProviderConfig>, name: string): (r: seq<ProviderConfig>)
    ensures forall p :: p in r <==> p in providers && p.name != name
    ensures |r| <= |providers|
  {
    if providers == [] then []
    else if providers[0].name != name then [providers[0]] + WithoutName(providers[1..], name)
    else WithoutName(providers[1..], name)
  }

  /** The filter works entry by entry: the kept providers of a concatenation
      are those of each half, in order. */
  lemma {:induction false} WithoutNameConcat(a: seq<ProviderConfig>, b: seq<ProviderConfig>, name: string)
    ensures WithoutName(a + b, name) == WithoutName(a, name) + WithoutName(b, name)
  {
    if a == [] {
      assert a + b == b;
    } else {
      assert (a + b)[1..] == a[1..] + b;
      WithoutNameConcat(a[1..], b, name);
    }
  }

  /** One provider is kept exactly when its name differs. */
  lemma WithoutNameSingle(p: ProviderConfig, name: string)
    ensures WithoutName([p], name) == if p.name != name then [p] else []
  {
    assert [p][1..] == [];
  }

  /** The providers with the name, in order. */
  function ProvidersNamed(providers: seq<ProviderConfig>, name: string): (r: seq<ProviderConfig>)
    ensures forall p :: p in r <==> p in providers && p.name == name
  {
    if providers == [] then []
    else if providers[0].name == name then [providers[0]] + ProvidersNamed(providers[1..], name)
    else ProvidersNamed(providers[1..], name)
  }

  function Names(providers: seq<ProviderConfig>): set<string> {
    set p | p in providers :: p.name
  }

  /** The provider list after `add_llm_config`. */
  function AddProvider(providers: seq<ProviderConfig>, config: ProviderConfig): seq<ProviderConfig> {
    WithoutName(providers, config.name) + [config]
  }

  lemma {:induction false} ProvidersNamedConcat(a: seq<ProviderConfig>, b: seq<ProviderConfig>, name: string)
    ensures ProvidersNamed(a + b, name) == ProvidersNamed(a, name) + ProvidersNamed(b, name)
  {
    if a == [] {
      assert a + b == b;
    } else {
      assert (a + b)[1..] == a[1..] + b;
      ProvidersNamedConcat(a[1..], b, name);
    }
  }

  lemma {:induction false} ProvidersNamedWithout(providers: seq<ProviderConfig>, name: string, other: string)
    ensures ProvidersNamed(WithoutName(providers, name), other) ==
      if other == name then [] else ProvidersNamed(providers, other)
  {
    if providers != [] {
      ProvidersNamedWithout(providers[1..], name, other);
    }
  }

  /** After adding a configuration, exactly one provider has its name and it
      is the last one; the providers of every other name are the same, in the
      same order; and no name is lost. */
  lemma AddProviderSpec(providers: seq<ProviderConfig>, config: ProviderConfig)
    ensures AddProvider(providers, config) == WithoutName(providers, config.name) + [config]
    ensures var r := AddProvider(providers, config);
      r[|r| - 1] == config &&
      ProvidersNamed(r, config.name) == [config] &&
      (forall name :: name != config.name ==> ProvidersNamed(r, name) == ProvidersNamed(providers, name)) &&
      Names(r) == Names(providers) + {config.name}
  {
    var r := AddProvider(providers, config);
    forall name ensures ProvidersNamed(r, name) ==
      if name == config.name then [config] else ProvidersNamed(providers, name)
    {
      ProvidersNamedConcat(WithoutName(providers, config.name), [config], name);
      ProvidersNamedWithout(providers, config.name, name);
    }
    forall n | n in Names(providers) + {config.name} ensures n in Names(r) {
      if n != config.name {
        var p :| p in providers && p.name == n;
        assert p in r;
      } else {
        assert config in r;
      }
    }
  }

  /** `iter().find(|p| p.name == name)`, turned into an error when absent. */
  function FindProvider(providers: seq<ProviderConfig>, name: string): (r: Result<ProviderConfig>)
    ensures r.Ok? <==> exists i :: 0 <= i < |providers| && providers[i].name == name
    ensures r.Ok? ==> r.value == ProvidersNamed(providers, name)[0]
    ensures r.Err? ==> r.error == "LLM configuration not found"
  {
    if providers == [] then Err("LLM configuration not found")
    else if providers[0].name == name then Ok(providers[0])
    else
      var r := FindProvider(providers[1..], name);
      assert r.Ok? ==> providers[1..][0].name == name || exists i :: 0 <= i < |providers[1..]| && providers[1..][i].name == name;
      assert (exists i :: 0 <= i < |providers[1..]| && providers[1..][i].name == name) ==>
        exists i :: 0 <= i < |providers| && providers[i].name == name;
      assert (exists i :: 0 <= i < |providers| && providers[i].name == name) ==>
        exists i :: 0 <= i < |providers[1..]| && providers[1..][i].name == name;
      r
  }

  /** A configuration is found by its name right after it is added. */
  lemma FindAfterAdd(providers: seq<ProviderConfig>, config: ProviderConfig)
    ensures FindProvider(AddProvider(providers, config), config.name) == Ok(config)
  {
    AddProviderSpec(providers, config);
    var r := AddProvider(providers, config);
    assert r[|r| - 1].name == config.name;
  }

  // ---------------------------------------------------------------------------
  // The settings manager
  // ---------------------------------------------------------------------------

  class SettingsManager {
    /** The settings in memory. */
    var settings: Settings
    /** The settings last written to settings.json. */
    var onDisk: Settings

    /** `SettingsManager::new`: the stored settings if the file exists, else
        the defaults, which are written out. */
    constructor (stored: Option<Settings>)
      ensures settings == (if stored.Some? then stored.value else DefaultSettings())
      ensures onDisk == settings
    {
      settings := if stored.Some? then stored.value else DefaultSettings();
      onDisk := settings;
    }

    /** `save` writes first and updates memory only after the write succeeds. */
    method Save(newSettings: Settings, write: Outcome) returns (r: Outcome)
      modifies this
      ensures r == write
      ensures write.Pass? ==> settings == newSettings && onDisk == newSettings
      ensures write.Fail? ==> settings == old(settings) && onDisk == old(onDisk)
    {
      if write.Fail? {
        return write;
      }
      onDisk := newSettings;
      settings := newSettings;
      return Pass;
    }

    /** `update_shortcuts` replaces the shortcuts in memory before writing,
        so a failed write leaves memory changed and the file as it was. */
    method UpdateShortcuts(shortcuts: seq<ShortcutConfig>, write: Outcome) returns (r: Outcome)
      modifies this
      ensures r == write
      ensures settings.shortcuts == shortcuts
      ensures settings.llmProviders == old(settings).llmProviders && settings.ui == old(settings).ui
      ensures onDisk == if write.Pass? then settings else old(onDisk)
    {
      settings := settings.(shortcuts := shortcuts);
      if write.Fail? {
        return write;
      }
      onDisk := settings;
      return Pass;
    }

    /** `get_llm_config`. */
    method GetLlmConfig(name: string) returns (r: Result<ProviderConfig>)
      ensures r == FindProvider(settings.llmProviders, name)
    {
      var providers := settings.llmProviders;
      var i := 0;
      while i < |providers|
        invariant 0 <= i <= |providers|
        invariant FindProvider(providers, name) == FindProvider(providers[i..], name)
      {
        if providers[i].name == name {
          return Ok(providers[i]);
        }
        assert providers[i..][1..] == providers[i + 1..];
        i := i + 1;
      }
      return Err("LLM configuration not found");
    }

    /** `add_llm_config`: drops every provider with the name, appends the new
        one, then writes. */
    method AddLlmConfig(config: ProviderConfig, write: Outcome) returns (r: Outcome)
      modifies this
      ensures r == write
      ensures settings.llmProviders == AddProvider(old(settings).llmProviders, config)
      ensures settings.shortcuts == old(settings).shortcuts && settings.ui == old(settings).ui
      ensures onDisk == if write.Pass? then settings else old(onDisk)
    {
      var kept := WithoutName(settings.llmProviders, config.name);
      settings := settings.(llmProviders := kept + [config]);
      if write.Fail? {
        return write;
      }
      onDisk := settings;
      return Pass;
    }

    /** `update_ui_config` replaces the window preferences, then writes. */
    method UpdateUiConfig(ui: UIConfig, write: Outcome) returns (r: Outcome)
      modifies this
      ensures r == write
      ensures settings.ui == ui
      ensures settings.llmProviders == old(settings).llmProviders && settings.shortcuts == old(settings).shortcuts
      ensures onDisk == if write.Pass? then settings else old(onDisk)
    {
      settings := settings.(ui := ui);
      if write.Fail? {
        return write;
      }
      onDisk := settings;
      return Pass;
    }
  }

  // ---------------------------------------------------------------------------
  // The application state
  // ---------------------------------------------------------------------------

  class AppState {
    const manager: SettingsManager
    /** The text captured when the window was last toggled. */
    var selectedText: Option<string>

    constructor (manager: SettingsManager)
      ensures this.manager == manager && selectedText == None
    {
      this.manager := manager;
      selectedText := None;
    }

    /** `register_llm`: `build` is whether a provider instance can be built
        from the configuration; only then is the configuration added. */
    method RegisterLlm(config: ProviderConfig, build: Outcome, write: Outcome) returns (r: Outcome)
      modifies manager
      ensures build.Fail? ==>
        r == build && manager.settings == old(manager.settings) && manager.onDisk == old(manager.onDisk)
      ensures build.Pass? ==>
        r == write &&
        manager.settings == old(manager.settings).(llmProviders := AddProvider(old(manager.settings).llmProviders, config)) &&
        manager.onDisk == (if write.Pass? then manager.settings else old(manager.onDisk))
    {
      if build.Fail? {
        return build;
      }
      r := manager.AddLlmConfig(config, write);
    }
  }
}
