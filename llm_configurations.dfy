/// The settings page's list of provider configurations: the form's
/// validator, saving a configuration through the backend, deleting one by
/// re-registering the others, editing and cancelling. After a backend call
/// the page reloads its list from the backend's in-memory providers.
module LlmConfigurations {
  import opened Wrappers
  import opened AppSettings
  import opened Strings
  import opened FormChecks

  /** The empty form. */
  function DefaultLlmConfig(): ProviderConfig {
    ProviderConfig("", "openai", "", "", 0.7, 1000)
  }

  /** Some entry other than the one being edited already has the name. With
      no entry being edited, every entry counts. */
  predicate NameTaken(configs: seq<ProviderConfig>, editingIndex: Option<nat>, name: string) {
    exists idx | 0 <= idx < |configs| :: configs[idx].name == name && editingIndex != Some(idx)
  }

  /** The checks of `validateConfig`, in the order they are made. */
  function ConfigChecks(configs: seq<ProviderConfig>, editingIndex: Option<nat>, config: ProviderConfig): seq<Check> {
    [ Check(Blank(config.name), "Configuration name is required"),
      Check(NameTaken(configs, editingIndex, config.name), "Configuration name must be unique"),
      Check(Blank(config.apiKey), "API key is required"),
      Check(Blank(config.model), "Model name is required"),
      Check(config.temperature < 0.0 || config.temperature > 2.0, "Temperature must be between 0 and 2"),
      Check(config.maxTokens < 1, "Max tokens must be greater than 0") ]
  }

  /** `validateConfig`: the message of the first failing check, or none. */
  function ValidateConfig(configs: seq<ProviderConfig>, editingIndex: Option<nat>, config: ProviderConfig): Option<string> {
    FirstFailure(ConfigChecks(configs, editingIndex, config))
  }

  /** The checks are made in the order of the chain of early returns. */
  lemma ValidateConfigOrder(configs: seq<ProviderConfig>, editingIndex: Option<nat>, config: ProviderConfig)
    ensures ValidateConfig(configs, editingIndex, config) ==
      if Blank(config.name) then Some("Configuration name is required")
      else if NameTaken(configs, editingIndex, config.name) then Some("Configuration name must be unique")
      else if Blank(config.apiKey) then Some("API key is required")
      else if Blank(config.model) then Some("Model name is required")
      else if config.temperature < 0.0 || config.temperature > 2.0 then Some("Temperature must be between 0 and 2")
      else if config.maxTokens < 1 then Some("Max tokens must be greater than 0")
      else None
  {
    FirstFailureOfSix(ConfigChecks(configs, editingIndex, config));
  }

  /** A configuration passes exactly when every field check passes. */
  lemma ValidateConfigNoneIff(configs: seq<ProviderConfig>, editingIndex: Option<nat>, config: ProviderConfig)
    ensures ValidateConfig(configs, editingIndex, config).None? <==>
      !Blank(config.name) && !NameTaken(configs, editingIndex, config.name) &&
      !Blank(config.apiKey) && !Blank(config.model) &&
      0.0 <= config.temperature <= 2.0 && config.maxTokens >= 1
  {
    ValidateConfigOrder(configs, editingIndex, config);
  }

  /** A name is checked for uniqueness only once it is not blank; when adding,
      any entry with the same name fails it. */
  lemma AddingDuplicateNameRejected(configs: seq<ProviderConfig>, config: ProviderConfig, i: nat)
    requires i < |configs| && configs[i].name == config.name
    requires !Blank(config.name)
    ensures ValidateConfig(configs, None, config) == Some("Configuration name must be unique")
  {
    assert NameTaken(configs, None, config.name);
    ValidateConfigOrder(configs, None, config);
  }

  /** While editing entry `i`, the uniqueness check sees exactly the other
      entries: it is the check made when adding to the list without entry
      `i`. */
  lemma EditingIgnoresOnlyItself(configs: seq<ProviderConfig>, i: nat, name: string)
    requires i < |configs|
    ensures NameTaken(configs, Some(i), name) <==> NameTaken(WithoutIndex(configs, i), None, name)
  {
    if NameTaken(configs, Some(i), name) {
      var idx :| 0 <= idx < |configs| && configs[idx].name == name && Some(i) != Some(idx);
      OtherEntryRemains(configs, i, idx);
    }
    if NameTaken(WithoutIndex(configs, i), None, name) {
      var k :| 0 <= k < |WithoutIndex(configs, i)| && WithoutIndex(configs, i)[k].name == name;
      RemainingEntryIsOther(configs, i, k);
    }
  }

  lemma OtherEntryRemains(configs: seq<ProviderConfig>, i: nat, idx: nat)
    requires i < |configs| && idx < |configs| && idx != i
    ensures NameTaken(WithoutIndex(configs, i), None, configs[idx].name)
  {
    var k := if idx < i then idx else idx - 1;
    WithoutIndexAt(configs, i, k);
    assert WithoutIndex(configs, i)[k] == configs[idx];
  }

  lemma RemainingEntryIsOther(configs: seq<ProviderConfig>, i: nat, k: nat)
    requires i < |configs| && k < |configs| - 1
    ensures NameTaken(configs, Some(i), WithoutIndex(configs, i)[k].name)
  {
    WithoutIndexAt(configs, i, k);
    var idx := if k < i then k else k + 1;
    assert configs[idx] == WithoutIndex(configs, i)[k] && Some(i) != Some(idx);
  }

  /** The empty form is rejected for its blank name. */
  lemma DefaultConfigRejected(configs: seq<ProviderConfig>, editingIndex: Option<nat>)
    ensures ValidateConfig(configs, editingIndex, DefaultLlmConfig()) == Some("Configuration name is required")
  {
    BlankIff("");
    ValidateConfigOrder(configs, editingIndex, DefaultLlmConfig());
  }

  // ---------------------------------------------------------------------------
  // Deleting by re-registering
  // ---------------------------------------------------------------------------

  /** The backend providers and the outcome after registering `configs` one
      after another, stopping at the first failure: `build` says whether a
      provider instance can be built from a configuration, `write` is the
      outcome of every file write. */
  datatype Reregistered = Reregistered(providers: seq<ProviderConfig>, outcome: Outcome)

  function Reregister(providers: seq<ProviderConfig>, configs: seq<ProviderConfig>,
                      build: ProviderConfig -> Outcome, write: Outcome): Reregistered
    decreases |configs|
  {
    if configs == [] then Reregistered(providers, Pass)
    else if build(configs[0]).Fail? then Reregistered(providers, build(configs[0]))
    else if write.Fail? then Reregistered(AddProvider(providers, configs[0]), write)
    else Reregister(AddProvider(providers, configs[0]), configs[1..], build, write)
  }

  /** Re-registering only ever adds names. */
  lemma {:induction false} ReregisterKeepsNames(providers: seq<ProviderConfig>, configs: seq<ProviderConfig>,
                                                build: ProviderConfig -> Outcome, write: Outcome)
    ensures Names(providers) <= Names(Reregister(providers, configs, build, write).providers)
    decreases |configs|
  {
    if configs != [] && build(configs[0]).Pass? {
      AddProviderSpec(providers, configs[0]);
      if write.Pass? {
        ReregisterKeepsNames(AddProvider(providers, configs[0]), configs[1..], build, write);
      }
    }
  }

  /** Deleting a configuration from the list the backend holds cannot remove
      it: its name is still among the backend's providers afterwards, whatever
      the builds and the writes do. */
  lemma DeleteCannotRemove(providers: seq<ProviderConfig>, index: nat,
                           build: ProviderConfig -> Outcome, write: Outcome)
    requires index < |providers|
    ensures providers[index].name in
      Names(Reregister(providers, WithoutIndex(providers, index), build, write).providers)
  {
    assert providers[index] in providers;
    ReregisterKeepsNames(providers, WithoutIndex(providers, index), build, write);
  }

  // ---------------------------------------------------------------------------
  // The form
  // ---------------------------------------------------------------------------

  class ConfigForm {
    /** The list shown, as last loaded from the backend. */
    var configs: seq<ProviderConfig>
    var currentConfig: ProviderConfig
    var editingIndex: Option<nat>
    var error: string

    constructor (configs: seq<ProviderConfig>)
      ensures this.configs == configs && currentConfig == DefaultLlmConfig()
      ensures editingIndex == None && error == ""
    {
      this.configs := configs;
      currentConfig := DefaultLlmConfig();
      editingIndex := None;
      error := "";
    }

    /** `handleSaveConfig`: a rejected form sets the error and calls nothing;
        otherwise the configuration is registered, and on success the list
        is reloaded and the form reset. */
    method HandleSaveConfig(state: AppState, build: Outcome, write: Outcome)
      modifies this, state.manager
      ensures var v := ValidateConfig(old(configs), old(editingIndex), old(currentConfig));
        v.Some? ==>
          error == v.value && configs == old(configs) && currentConfig == old(currentConfig) &&
          editingIndex == old(editingIndex) &&
          state.manager.settings == old(state.manager.settings) && state.manager.onDisk == old(state.manager.onDisk)
      ensures var v := ValidateConfig(old(configs), old(editingIndex), old(currentConfig));
        var r := if build.Fail? then build else write;
        v.None? ==>
          state.manager.settings ==
            (if build.Fail? then old(state.manager.settings)
             else old(state.manager.settings).(llmProviders := AddProvider(old(state.manager.settings).llmProviders, old(currentConfig)))) &&
          state.manager.onDisk == (if r.Pass? then state.manager.settings else old(state.manager.onDisk)) &&
          (r.Fail? ==> error == r.error && configs == old(configs) && currentConfig == old(currentConfig) &&
                       editingIndex == old(editingIndex)) &&
          (r.Pass? ==> error == "" && configs == state.manager.settings.llmProviders &&
                       currentConfig == DefaultLlmConfig() && editingIndex == None)
    {
      var validationError := ValidateConfig(configs, editingIndex, currentConfig);
      if validationError.Some? {
        error := validationError.value;
        return;
      }
      error := "";
      var r := state.RegisterLlm(currentConfig, build, write);
      if r.Fail? {
        error := r.error;
        return;
      }
      configs := state.manager.settings.llmProviders;
      currentConfig := DefaultLlmConfig();
      editingIndex := None;
    }

    /** `handleEditConfig`. */
    method HandleEditConfig(index: nat)
      requires index < |configs|
      modifies this
      ensures configs == old(configs) && currentConfig == configs[index]
      ensures editingIndex == Some(index) && error == ""
    {
      currentConfig := configs[index];
      editingIndex := Some(index);
      error := "";
    }

    /** `handleDeleteConfig`: every configuration except the one at `index`
        is registered again, in order, stopping at the first failure; on
        success the list is reloaded, and the form is reset if it was editing
        the deleted index. */
    method HandleDeleteConfig(state: AppState, index: nat, build: ProviderConfig -> Outcome, write: Outcome)
      modifies this, state.manager
      ensures var rr := Reregister(old(state.manager.settings).llmProviders, WithoutIndex(old(configs), index), build, write);
        state.manager.settings == old(state.manager.settings).(llmProviders := rr.providers) &&
        (rr.outcome.Fail? ==> error == rr.outcome.error && configs == old(configs) &&
                              currentConfig == old(currentConfig) && editingIndex == old(editingIndex)) &&
        (rr.outcome.Pass? ==>
           error == old(error) && configs == rr.providers &&
           (if old(editingIndex) == Some(index) then editingIndex == None && currentConfig == DefaultLlmConfig()
            else editingIndex == old(editingIndex) && currentConfig == old(currentConfig)))
      ensures write.Fail? ==> state.manager.onDisk == old(state.manager.onDisk)
      ensures write.Pass? ==>
        state.manager.onDisk == state.manager.settings ||
        (state.manager.onDisk == old(state.manager.onDisk) && state.manager.settings == old(state.manager.settings))
    {
      var updated := WithoutIndex(configs, index);
      var i := 0;
      while i < |updated|
        invariant 0 <= i <= |updated|
        invariant state.manager.settings.shortcuts == old(state.manager.settings).shortcuts
        invariant state.manager.settings.ui == old(state.manager.settings).ui
        invariant Reregister(old(state.manager.settings).llmProviders, updated, build, write) ==
          Reregister(state.manager.settings.llmProviders, updated[i..], build, write)
        invariant write.Fail? ==> state.manager.onDisk == old(state.manager.onDisk) && i == 0
        invariant write.Pass? ==>
          state.manager.onDisk == state.manager.settings ||
          (state.manager.onDisk == old(state.manager.onDisk) && state.manager.settings == old(state.manager.settings))
        invariant configs == old(configs) && editingIndex == old(editingIndex)
        invariant currentConfig == old(currentConfig) && error == old(error)
      {
        var config := updated[i];
        assert updated[i..][0] == config && updated[i..][1..] == updated[i + 1..];
        var r := state.RegisterLlm(config, build(config), write);
        if r.Fail? {
          error := r.error;
          return;
        }
        i := i + 1;
      }
      configs := state.manager.settings.llmProviders;
      if editingIndex == Some(index) {
        editingIndex := None;
        currentConfig := DefaultLlmConfig();
      }
    }

    /** `handleCancelEdit`. */
    method HandleCancelEdit()
      modifies this
      ensures configs == old(configs) && currentConfig == DefaultLlmConfig()
      ensures editingIndex == None && error == ""
    {
      currentConfig := DefaultLlmConfig();
      editingIndex := None;
      error := "";
    }
  }
}
