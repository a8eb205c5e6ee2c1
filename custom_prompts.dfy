/// The settings page's list of custom prompts: the form's validator, saving
/// and deleting through the backend, editing and cancelling, and the
/// shortcut field, which edits the stored wire string with a capture session
/// in custom-prompt mode. After a backend call the page reloads its list from
/// the backend's in-memory shortcut entries.
module CustomPrompts {
  import opened Wrappers
  import opened Strings
  import opened KeyboardUtils
  import opened AppSettings
  import opened FormChecks
  import opened ShortcutEditor
  import opened Query

  /** The empty form. */
  function DefaultPrompt(): CustomPromptConfig {
    CustomPromptConfig("", "", "", "")
  }

  /** The checks of `validatePrompt`, in the order they are made. */
  function PromptChecks(prompt: CustomPromptConfig): seq<Check> {
    [ Check(Blank(prompt.name), "Name is required"),
      Check(Blank(prompt.providerName), "Provider is required"),
      Check(Blank(prompt.promptTemplate), "Prompt template is required") ]
  }

  /** `validatePrompt`: the message of the first failing check, or none. */
  function ValidatePrompt(prompt: CustomPromptConfig): Option<string> {
    FirstFailure(PromptChecks(prompt))
  }

  /** The checks are made in the order of the chain of early returns, and
      the shortcut is not checked at all: an unbound prompt is accepted. */
  lemma ValidatePromptOrder(prompt: CustomPromptConfig)
    ensures ValidatePrompt(prompt) ==
      if Blank(prompt.name) then Some("Name is required")
      else if Blank(prompt.providerName) then Some("Provider is required")
      else if Blank(prompt.promptTemplate) then Some("Prompt template is required")
      else None
    ensures forall s :: ValidatePrompt(prompt.(shortcut := s)) == ValidatePrompt(prompt)
  {
    FirstFailureOfThree(PromptChecks(prompt));
    forall s ensures ValidatePrompt(prompt.(shortcut := s)) == ValidatePrompt(prompt) {
      assert PromptChecks(prompt.(shortcut := s)) == PromptChecks(prompt);
    }
  }

  /** The empty form is rejected for its blank name. */
  lemma DefaultPromptRejected()
    ensures ValidatePrompt(DefaultPrompt()) == Some("Name is required")
  {
    BlankIff("");
    ValidatePromptOrder(DefaultPrompt());
  }

  /** What delete sends: the prompt with its binding cleared. */
  function Unbound(prompt: CustomPromptConfig): CustomPromptConfig {
    prompt.(shortcut := "")
  }

  /** Deleting a stored prompt keeps it: reading the prompts back still
      gives it, unbound, in place of the old record. */
  lemma DeleteKeepsPrompt(shortcuts: seq<ShortcutConfig>, prompt: CustomPromptConfig)
    requires FirstIndexOfName(shortcuts, prompt.name).Some?
    ensures var i := FirstIndexOfName(shortcuts, prompt.name).value;
      CustomPrompts(Upsert(shortcuts, PromptEntry(Unbound(prompt)))) ==
      CustomPrompts(shortcuts[..i]) + [Unbound(prompt)] + CustomPrompts(shortcuts[i + 1..])
    ensures Unbound(prompt) in CustomPrompts(Upsert(shortcuts, PromptEntry(Unbound(prompt))))
  {
    ExistingPromptReadBack(shortcuts, Unbound(prompt));
  }

  class PromptForm {
    /** The list shown, as last loaded from the backend. */
    var prompts: seq<CustomPromptConfig>
    var currentPrompt: CustomPromptConfig
    var isEditing: bool
    var editingIndex: Option<nat>
    var error: string

    constructor (prompts: seq<CustomPromptConfig>)
      ensures this.prompts == prompts && currentPrompt == DefaultPrompt()
      ensures !isEditing && editingIndex == None && error == ""
    {
      this.prompts := prompts;
      currentPrompt := DefaultPrompt();
      isEditing := false;
      editingIndex := None;
      error := "";
    }

    /** `handleSavePrompt`: a rejected form sets the error and calls
        nothing; otherwise the prompt is registered, and on success the form
        is reset and the list reloaded. `write` and `emit` are the outcomes of
        the backend's file write and notification. */
    method HandleSavePrompt(state: AppState, write: Outcome, emit: Outcome)
      modifies this, state.manager
      ensures ValidatePrompt(old(currentPrompt)).Some? ==>
        error == ValidatePrompt(old(currentPrompt)).value && prompts == old(prompts) &&
        currentPrompt == old(currentPrompt) && isEditing == old(isEditing) && editingIndex == old(editingIndex) &&
        state.manager.settings == old(state.manager.settings) && state.manager.onDisk == old(state.manager.onDisk)
      ensures ValidatePrompt(old(currentPrompt)).None? ==>
        state.manager.settings ==
          old(state.manager.settings).(shortcuts := Upsert(old(state.manager.settings).shortcuts, PromptEntry(old(currentPrompt)))) &&
        state.manager.onDisk == (if write.Pass? then state.manager.settings else old(state.manager.onDisk)) &&
        (write.Fail? ==>
           error == write.error && prompts == old(prompts) && currentPrompt == old(currentPrompt) &&
           isEditing == old(isEditing) && editingIndex == old(editingIndex)) &&
        (write.Pass? && emit.Fail? ==>
           error == "Failed to emit shortcuts-updated event: " + emit.error && prompts == old(prompts) &&
           currentPrompt == old(currentPrompt) && isEditing == old(isEditing) && editingIndex == old(editingIndex)) &&
        (write.Pass? && emit.Pass? ==>
           error == "" && currentPrompt == DefaultPrompt() && !isEditing && editingIndex == None &&
           prompts == CustomPrompts(state.manager.settings.shortcuts))
    {
      var validationError := ValidatePrompt(currentPrompt);
      if validationError.Some? {
        error := validationError.value;
        return;
      }
      Submit(state, write, emit);
    }

    /** The part of `handleSavePrompt` after validation. */
    method Submit(state: AppState, write: Outcome, emit: Outcome)
      modifies this, state.manager
      ensures state.manager.settings ==
        old(state.manager.settings).(shortcuts := Upsert(old(state.manager.settings).shortcuts, PromptEntry(old(currentPrompt))))
      ensures state.manager.onDisk == if write.Pass? then state.manager.settings else old(state.manager.onDisk)
      ensures write.Fail? ==>
        error == write.error && prompts == old(prompts) && currentPrompt == old(currentPrompt) &&
        isEditing == old(isEditing) && editingIndex == old(editingIndex)
      ensures write.Pass? && emit.Fail? ==>
        error == "Failed to emit shortcuts-updated event: " + emit.error && prompts == old(prompts) &&
        currentPrompt == old(currentPrompt) && isEditing == old(isEditing) && editingIndex == old(editingIndex)
      ensures write.Pass? && emit.Pass? ==>
        error == "" && currentPrompt == DefaultPrompt() && !isEditing && editingIndex == None &&
        prompts == CustomPrompts(state.manager.settings.shortcuts)
    {
      var r := RegisterCustomPrompt(state, currentPrompt, write, emit);
      if r.Err? {
        error := r.error;
        return;
      }
      currentPrompt := DefaultPrompt();
      isEditing := false;
      editingIndex := None;
      error := "";
      prompts := CustomPrompts(state.manager.settings.shortcuts);
    }

    /** `handleDeletePrompt`: registers the prompt at `index` again with an
        empty shortcut; on success the list is reloaded. */
    method HandleDeletePrompt(state: AppState, index: nat, write: Outcome, emit: Outcome)
      requires index < |prompts|
      modifies this, state.manager
      ensures state.manager.settings ==
        old(state.manager.settings).(shortcuts := Upsert(old(state.manager.settings).shortcuts, PromptEntry(Unbound(old(prompts)[index]))))
      ensures state.manager.onDisk == if write.Pass? then state.manager.settings else old(state.manager.onDisk)
      ensures currentPrompt == old(currentPrompt) && isEditing == old(isEditing) && editingIndex == old(editingIndex)
      ensures write.Fail? ==> error == write.error && prompts == old(prompts)
      ensures write.Pass? && emit.Fail? ==>
        error == "Failed to emit shortcuts-updated event: " + emit.error && prompts == old(prompts)
      ensures write.Pass? && emit.Pass? ==>
        error == old(error) && prompts == CustomPrompts(state.manager.settings.shortcuts)
    {
      var promptToDelete := Unbound(prompts[index]);
      var r := RegisterCustomPrompt(state, promptToDelete, write, emit);
      if r.Err? {
        error := r.error;
        return;
      }
      prompts := CustomPrompts(state.manager.settings.shortcuts);
    }

    /** `handleEditPrompt`. */
    method HandleEditPrompt(index: nat)
      requires index < |prompts|
      modifies this
      ensures prompts == old(prompts) && currentPrompt == prompts[index]
      ensures isEditing && editingIndex == Some(index) && error == old(error)
    {
      currentPrompt := prompts[index];
      isEditing := true;
      editingIndex := Some(index);
    }

    /** `handleCancelEdit`. */
    method HandleCancelEdit()
      modifies this
      ensures prompts == old(prompts) && currentPrompt == DefaultPrompt()
      ensures !isEditing && editingIndex == None && error == ""
    {
      currentPrompt := DefaultPrompt();
      isEditing := false;
      editingIndex := None;
      error := "";
    }

    /** The shortcut field's change handler. */
    method OnShortcutChange(shortcut: string)
      modifies this
      ensures currentPrompt == old(currentPrompt).(shortcut := shortcut)
      ensures prompts == old(prompts) && isEditing == old(isEditing)
      ensures editingIndex == old(editingIndex) && error == old(error)
    {
      currentPrompt := currentPrompt.(shortcut := shortcut);
    }

    /** Saving the shortcut field: the capture session, in custom-prompt
        mode, hands over its sorted keys, which the form stores in wire
        form. */
    method SaveShortcutField(editor: Editor)
      requires editor.isCustomPrompt && editor.Valid()
      modifies this, editor
      ensures editor.Valid()
      ensures var accepted := old(editor.isEditing) && Accepts(true, old(editor.currentKeys));
        currentPrompt == (if accepted then old(currentPrompt).(shortcut := KeysArrayToTauri(SortKeys(old(editor.currentKeys))))
                          else old(currentPrompt))
      ensures prompts == old(prompts) && isEditing == old(isEditing)
      ensures editingIndex == old(editingIndex) && error == old(error)
    {
      var saved := editor.SaveShortcut();
      if saved.Some? {
        OnShortcutChange(KeysArrayToTauri(saved.value));
      }
    }
  }

  /** The keys the shortcut field shows for a stored string. */
  function ShownKeys(shortcut: string): seq<string> {
    TauriToKeysArray(shortcut)
  }

  /** An unbound prompt shows no keys. */
  lemma UnboundShowsNothing(prompt: CustomPromptConfig)
    ensures ShownKeys(Unbound(prompt).shortcut) == []
  {
  }

  /** A shortcut accepted by the field, of keys that are modifiers or in
      first-upper-rest-lower form, is shown again as the sorted keys that
      were accepted. */
  lemma AcceptedShortcutShownAgain(keys: seq<string>)
    requires forall k :: 0 <= k < |keys| ==> CanonicalKey(keys[k])
    ensures ShownKeys(KeysArrayToTauri(SortKeys(keys))) == SortKeys(keys)
  {
    SortKeysSpec(keys);
    var sorted := SortKeys(keys);
    forall k | 0 <= k < |sorted| ensures CanonicalKey(sorted[k]) {
      assert sorted[k] in multiset(keys);
      var j :| 0 <= j < |keys| && keys[j] == sorted[k];
    }
    KeysRoundTrip(sorted);
  }
}
