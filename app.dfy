/// The stand-alone configuration manager of the main page: the same
/// validator as the settings page, over a list it keeps itself and edits by
/// index.
module App {
  import opened Wrappers
  import opened AppSettings
  import opened FormChecks
  import opened LlmConfigurations

  class ConfigManager {
    var configs: seq<ProviderConfig>
    var currentConfig: ProviderConfig
    var editingIndex: Option<nat>
    var error: string

    constructor ()
      ensures configs == [] && currentConfig == DefaultLlmConfig()
      ensures editingIndex == None && error == ""
    {
      configs := [];
      currentConfig := DefaultLlmConfig();
      editingIndex := None;
      error := "";
    }

    /** `handleSaveConfig`. `register` is the outcome of registering the
        configuration with the backend. A rejected form only sets the error;
        a saved one replaces the entry at the edited index, or is appended,
        and the form is reset. */
    method HandleSaveConfig(register: Outcome)
      modifies this
      ensures var v := ValidateConfig(old(configs), old(editingIndex), old(currentConfig));
        v.Some? ==>
          error == v.value && configs == old(configs) &&
          currentConfig == old(currentConfig) && editingIndex == old(editingIndex)
      ensures var v := ValidateConfig(old(configs), old(editingIndex), old(currentConfig));
        v.None? && register.Fail? ==>
          error == register.error && configs == old(configs) &&
          currentConfig == old(currentConfig) && editingIndex == old(editingIndex)
      ensures var v := ValidateConfig(old(configs), old(editingIndex), old(currentConfig));
        v.None? && register.Pass? ==>
          error == "" && currentConfig == DefaultLlmConfig() && editingIndex == None &&
          configs == SavedList(old(configs), old(editingIndex), old(currentConfig))
    {
      var validationError := ValidateConfig(configs, editingIndex, currentConfig);
      if validationError.Some? {
        error := validationError.value;
        return;
      }
      error := "";
      if register.Fail? {
        error := register.error;
        return;
      }
      if editingIndex.Some? {
        configs := ReplaceAt(configs, editingIndex.value, currentConfig);
      } else {
        configs := configs + [currentConfig];
      }
      currentConfig := DefaultLlmConfig();
      editingIndex := None;
    }

    /** `handleEditConfig`. */
    method HandleEditConfig(index: nat)
      requires index < |configs|
      modifies this
      ensures configs == old(configs) && currentConfig == configs[index]
      ensures editingIndex == Some(index) && error == ""
    {
      currentConfig := configs[index];
      editingIndex := Some(index);
      error := "";
    }

    /** `handleDeleteConfig`: removes the entry at `index`; the form is reset
        only when that entry was being edited. */
    method HandleDeleteConfig(index: nat)
      modifies this
      ensures configs == WithoutIndex(old(configs), index) && error == old(error)
      ensures old(editingIndex) == Some(index) ==> editingIndex == None && currentConfig == DefaultLlmConfig()
      ensures old(editingIndex) != Some(index) ==>
        editingIndex == old(editingIndex) && currentConfig == old(currentConfig)
    {
      configs := WithoutIndex(configs, index);
      if editingIndex == Some(index) {
        editingIndex := None;
        currentConfig := DefaultLlmConfig();
      }
    }

    /** `handleCancelEdit`. */
    method HandleCancelEdit()
      modifies this
      ensures configs == old(configs) && currentConfig == DefaultLlmConfig()
      ensures editingIndex == None && error == ""
    {
      currentConfig := DefaultLlmConfig();
      editingIndex := None;
      error := "";
    }
  }

  /** The list after a successful save. */
  function SavedList(configs: seq<ProviderConfig>, editingIndex: Option<nat>, config: ProviderConfig): seq<ProviderConfig> {
    if editingIndex.Some? then ReplaceAt(configs, editingIndex.value, config) else configs + [config]
  }

  /** Saving an edit replaces only the edited entry and keeps the length;
      saving a new configuration appends it. */
  lemma SavedListShape(configs: seq<ProviderConfig>, editingIndex: Option<nat>, config: ProviderConfig)
    ensures editingIndex.None? ==> SavedList(configs, editingIndex, config) == configs + [config]
    ensures editingIndex.Some? ==> |SavedList(configs, editingIndex, config)| == |configs|
    ensures editingIndex.Some? && editingIndex.value < |configs| ==>
      SavedList(configs, editingIndex, config)[editingIndex.value] == config &&
      forall i :: 0 <= i < |configs| && i != editingIndex.value ==> SavedList(configs, editingIndex, config)[i] == configs[i]
  {
  }

  /** Deleting removes exactly one position and keeps the order of the
      rest. */
  lemma DeleteShape(configs: seq<ProviderConfig>, index: nat)
    requires index < |configs|
    ensures |WithoutIndex(configs, index)| == |configs| - 1
    ensures forall i :: 0 <= i < index ==> WithoutIndex(configs, index)[i] == configs[i]
    ensures forall i :: index <= i < |configs| - 1 ==> WithoutIndex(configs, index)[i] == configs[i + 1]
  {
  }

  /** Deleting an entry below the edited one leaves the edit pointing one
      entry too far. A save that passes validation (the edit gave the entry a
      name no other entry holds) then overwrites the entry after the edited
      one and keeps the edited one as it was. */
  lemma SaveAfterDeleteBelowOverwritesNext(configs: seq<ProviderConfig>, deleted: nat, edited: nat, config: ProviderConfig)
    requires deleted < edited < |configs| - 1
    ensures var saved := SavedList(WithoutIndex(configs, deleted), Some(edited), config);
      |saved| == |configs| - 1 &&
      saved[edited - 1] == configs[edited] &&
      saved[edited] == config &&
      WithoutIndex(configs, deleted)[edited] == configs[edited + 1]
  {
  }

  /** After a delete below the edited entry, that entry sits at `edited - 1`,
      which the stale index no longer exempts from the uniqueness check:
      saving it under its own name is rejected as a duplicate. */
  lemma StaleSameNameRejected(configs: seq<ProviderConfig>, deleted: nat, edited: nat, config: ProviderConfig)
    requires deleted < edited < |configs|
    requires config.name == configs[edited].name && !Blank(config.name)
    ensures ValidateConfig(WithoutIndex(configs, deleted), Some(edited), config) ==
      Some("Configuration name must be unique")
  {
    var shifted := WithoutIndex(configs, deleted);
    WithoutIndexAt(configs, deleted, edited - 1);
    assert shifted[edited - 1].name == config.name;
    assert NameTaken(shifted, Some(edited), config.name);
    ValidateConfigOrder(shifted, Some(edited), config);
  }

  /** When the edited entry was the last one and an entry below it is
      deleted, the edit points past the end: a save that passes validation
      leaves the local list unchanged, so the edit is dropped from it. */
  lemma SaveAtStaleLastIndexDropsEdit(configs: seq<ProviderConfig>, deleted: nat, config: ProviderConfig)
    requires deleted < |configs| - 1
    ensures SavedList(WithoutIndex(configs, deleted), Some(|configs| - 1), config) == WithoutIndex(configs, deleted)
  {
  }
}
