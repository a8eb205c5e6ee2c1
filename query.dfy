/// Custom prompts on the backend: registering one as a `Prompt` shortcut
/// entry, reading them back, and running one on the selected text.
module Query {
  import opened Wrappers
  import opened Strings
  import opened AppSettings

  datatype CustomPromptConfig = CustomPromptConfig(
    name: string,
    providerName: string,
    promptTemplate: string,
    shortcut: string)

  /** The entry `register_custom_prompt` stores for a custom prompt. */
  function PromptEntry(config: CustomPromptConfig): ShortcutConfig {
    ShortcutConfig(config.name, config.shortcut, Prompt(config.providerName, config.promptTemplate))
  }

  /** The record `get_custom_prompts` makes of an entry, if it is a prompt. */
  function AsCustomPrompt(entry: ShortcutConfig): Option<CustomPromptConfig> {
    match entry.command
    case Prompt(providerName, prompt) => Some(CustomPromptConfig(entry.name, providerName, prompt, entry.shortcut))
    case _ => None
  }

  /** The record read back from a stored prompt entry is the registered one. */
  lemma EntryRoundTrip(config: CustomPromptConfig)
    ensures AsCustomPrompt(PromptEntry(config)) == Some(config)
  {
  }

  // ---------------------------------------------------------------------------
  // register_custom_prompt
  // ---------------------------------------------------------------------------

  /** `register_custom_prompt`: upserts the prompt's entry by name and saves
      the shortcuts; `write` is the outcome of writing the file and `emit`
      that of notifying the front end. */
  method RegisterCustomPrompt(state: AppState, config: CustomPromptConfig, write: Outcome, emit: Outcome)
    returns (r: Result<string>)
    modifies state.manager
    ensures state.manager.settings.shortcuts == Upsert(old(state.manager.settings.shortcuts), PromptEntry(config))
    ensures state.manager.settings.llmProviders == old(state.manager.settings.llmProviders)
    ensures state.manager.settings.ui == old(state.manager.settings.ui)
    ensures state.manager.onDisk == if write.Pass? then state.manager.settings else old(state.manager.onDisk)
    ensures write.Fail? ==> r == Err(write.error)
    ensures write.Pass? && emit.Fail? ==> r == Err("Failed to emit shortcuts-updated event: " + emit.error)
    ensures write.Pass? && emit.Pass? ==> r == Ok("Custom prompt '" + config.name + "' registered successfully")
  {
    var entry := PromptEntry(config);
    var shortcuts := state.manager.settings.shortcuts;
    var position := Position(shortcuts, config.name);
    if position.Some? {
      shortcuts := shortcuts[position.value := entry];
    } else {
      shortcuts := shortcuts + [entry];
    }
    var saved := state.manager.UpdateShortcuts(shortcuts, write);
    if saved.Fail? {
      return Err(saved.error);
    }
    if emit.Fail? {
      return Err("Failed to emit shortcuts-updated event: " + emit.error);
    }
    return Ok("Custom prompt '" + config.name + "' registered successfully");
  }

  // ---------------------------------------------------------------------------
  // get_custom_prompts
  // ---------------------------------------------------------------------------

  /** `get_custom_prompts`: the records of the prompt entries, in registry
      order. */
  function CustomPrompts(shortcuts: seq<ShortcutConfig>): (r: seq<CustomPromptConfig>)
    ensures |r| <= |shortcuts|
  {
    if shortcuts == [] then []
    else
      var rest := CustomPrompts(shortcuts[1..]);
      match AsCustomPrompt(shortcuts[0])
      case Some(c) => [c] + rest
      case None => rest
  }

  /** The prompts read back are exactly the records of the prompt entries. */
  lemma {:induction false} CustomPromptsMembers(shortcuts: seq<ShortcutConfig>)
    ensures forall c :: c in CustomPrompts(shortcuts) <==>
      exists i :: 0 <= i < |shortcuts| && AsCustomPrompt(shortcuts[i]) == Some(c)
  {
    if shortcuts != [] {
      CustomPromptsMembers(shortcuts[1..]);
      assert forall i :: 0 < i < |shortcuts| ==> shortcuts[i] == shortcuts[1..][i - 1];
      forall c ensures c in CustomPrompts(shortcuts) <==>
        exists i :: 0 <= i < |shortcuts| && AsCustomPrompt(shortcuts[i]) == Some(c)
      {
        if exists i :: 0 <= i < |shortcuts| && AsCustomPrompt(shortcuts[i]) == Some(c) {
          var i :| 0 <= i < |shortcuts| && AsCustomPrompt(shortcuts[i]) == Some(c);
          if i > 0 {
            assert AsCustomPrompt(shortcuts[1..][i - 1]) == Some(c);
          }
        }
      }
    }
  }

  lemma {:induction false} CustomPromptsConcat(a: seq<ShortcutConfig>, b: seq<ShortcutConfig>)
    ensures CustomPrompts(a + b) == CustomPrompts(a) + CustomPrompts(b)
  {
    if a == [] {
      assert a + b == b;
    } else {
      assert (a + b)[1..] == a[1..] + b;
      CustomPromptsConcat(a[1..], b);
    }
  }

  /** Replacing a non-prompt entry by a prompt entry inserts that prompt's
      record among the others; replacing one prompt entry by another swaps
      the records. */
  lemma CustomPromptsReplace(shortcuts: seq<ShortcutConfig>, i: nat, entry: ShortcutConfig)
    requires i < |shortcuts|
    ensures CustomPrompts(shortcuts[i := entry]) ==
      CustomPrompts(shortcuts[..i]) + CustomPrompts([entry]) + CustomPrompts(shortcuts[i + 1..])
  {
    assert shortcuts[i := entry] == shortcuts[..i] + [entry] + shortcuts[i + 1..];
    CustomPromptsConcat(shortcuts[..i] + [entry], shortcuts[i + 1..]);
    CustomPromptsConcat(shortcuts[..i], [entry]);
  }

  /** Registering a prompt under a new name and reading the prompts back
      yields the earlier prompts followed by exactly that prompt. */
  lemma FreshPromptReadBack(shortcuts: seq<ShortcutConfig>, config: CustomPromptConfig)
    requires FirstIndexOfName(shortcuts, config.name).None?
    ensures CustomPrompts(Upsert(shortcuts, PromptEntry(config))) == CustomPrompts(shortcuts) + [config]
  {
    CustomPromptsConcat(shortcuts, [PromptEntry(config)]);
    assert CustomPrompts([PromptEntry(config)]) == [config] by {
      assert [PromptEntry(config)][1..] == [];
    }
  }

  /** Registering under an existing name replaces that entry's record in
      place, or adds the record where a system command stood. */
  lemma ExistingPromptReadBack(shortcuts: seq<ShortcutConfig>, config: CustomPromptConfig)
    requires FirstIndexOfName(shortcuts, config.name).Some?
    ensures var i := FirstIndexOfName(shortcuts, config.name).value;
      CustomPrompts(Upsert(shortcuts, PromptEntry(config))) ==
      CustomPrompts(shortcuts[..i]) + [config] + CustomPrompts(shortcuts[i + 1..])
  {
    var i := FirstIndexOfName(shortcuts, config.name).value;
    var entry := PromptEntry(config);
    assert entry.name == config.name;
    assert Upsert(shortcuts, entry) == shortcuts[i := entry];
    CustomPromptsReplace(shortcuts, i, entry);
    assert CustomPrompts([entry]) == [config] by {
      assert [PromptEntry(config)][1..] == [];
    }
  }

  // ---------------------------------------------------------------------------
  // execute_custom_prompt and handle_prompt_command
  // ---------------------------------------------------------------------------

  const Placeholder: string := "{{selectedText}}"

  /** The lookup of `execute_custom_prompt`: the first entry with the name
      must exist and be a prompt; gives its provider and template. */
  function LookupPrompt(shortcuts: seq<ShortcutConfig>, name: string): (r: Result<(string, string)>)
    ensures r.Ok? <==>
      (FirstIndexOfName(shortcuts, name).Some? && shortcuts[FirstIndexOfName(shortcuts, name).value].command.Prompt?)
    ensures FirstIndexOfName(shortcuts, name).None? ==> r == Err("Custom prompt '" + name + "' not found")
    ensures r.Ok? ==> var command := shortcuts[FirstIndexOfName(shortcuts, name).value].command;
      r.value == (command.providerName, command.prompt)
  {
    match FindByName(shortcuts, name)
    case None => Err("Custom prompt '" + name + "' not found")
    case Some(entry) =>
      match entry.command
      case Prompt(providerName, prompt) => Ok((providerName, prompt))
      case _ => Err("'" + name + "' is not a custom prompt")
  }

  /** After a prompt is registered, running it by name uses its provider and
      template, whatever the name held before. */
  lemma LookupAfterRegister(shortcuts: seq<ShortcutConfig>, config: CustomPromptConfig)
    ensures LookupPrompt(Upsert(shortcuts, PromptEntry(config)), config.name) ==
      Ok((config.providerName, config.promptTemplate))
  {
    UpsertLookup(shortcuts, PromptEntry(config), config.name);
  }

  /** A name held by a system command is refused. */
  lemma SystemCommandIsNotAPrompt(shortcuts: seq<ShortcutConfig>, name: string)
    requires FindByName(shortcuts, name).Some? && !FindByName(shortcuts, name).value.command.Prompt?
    ensures LookupPrompt(shortcuts, name) == Err("'" + name + "' is not a custom prompt")
  {
  }

  /** Whether the selected text is absent or consists of whitespace only, by
      Rust's `trim`. */
  predicate NoSelection(selected: Option<string>) {
    selected.None? || Trim(selected.value, IsRustWhitespace) == []
  }

  /** The prompt `handle_prompt_command` submits: none when there is no
      usable selection, else the template with every placeholder replaced by
      the selected text. */
  function PromptToSubmit(selected: Option<string>, template: string): (r: Option<string>)
    ensures r.None? <==>
      selected.None? || forall k :: 0 <= k < |selected.value| ==> IsRustWhitespace(selected.value[k])
    ensures r.Some? && !Contains(template, Placeholder) ==> r.value == template
  {
    if selected.None? then None
    else
      TrimEmptyIff(selected.value, IsRustWhitespace);
      if Trim(selected.value, IsRustWhitespace) == [] then None
      else
        ReplaceAllAbsentIf(template, selected.value);
        Some(ReplaceAll(template, Placeholder, selected.value))
  }

  lemma ReplaceAllAbsentIf(template: string, text: string)
    ensures !Contains(template, Placeholder) ==> ReplaceAll(template, Placeholder, text) == template
  {
    if !Contains(template, Placeholder) {
      ReplaceAllAbsent(template, Placeholder, text);
    }
  }

  /** A selection with a character that is not whitespace is usable. */
  predicate Usable(selected: string) {
    exists k :: 0 <= k < |selected| && !IsRustWhitespace(selected[k])
  }

  /** The first placeholder of the template is replaced by the selected text
      and the rest of the template is processed in the same way. */
  lemma FirstPlaceholderReplaced(selected: string, before: string, after: string)
    requires Usable(selected)
    requires !Contains(before + Placeholder[..|Placeholder| - 1], Placeholder)
    ensures PromptToSubmit(Some(selected), before + Placeholder + after) ==
      Some(before + selected + ReplaceAll(after, Placeholder, selected))
  {
    ReplaceAllAtFirst(before, Placeholder, after, selected);
  }

  /** Every placeholder is replaced: a template made of parts with the
      placeholder between them, no part starting a placeholder of its own,
      is submitted as the same parts with the selected text between them. */
  lemma EveryPlaceholderReplaced(selected: string, parts: seq<string>)
    requires Usable(selected) && |parts| >= 1
    requires forall k :: 0 <= k < |parts| - 1 ==> !Contains(parts[k] + Placeholder[..|Placeholder| - 1], Placeholder)
    requires !Contains(parts[|parts| - 1], Placeholder)
    ensures PromptToSubmit(Some(selected), JoinWith(parts, Placeholder)) == Some(JoinWith(parts, selected))
  {
    ReplaceAllParts(parts, Placeholder, selected);
  }

  /** When the only `{` of the template are those of its placeholders and the
      selected text has none, no placeholder is left in what is submitted. */
  lemma NoPlaceholderLeft(selected: string, parts: seq<string>)
    requires Usable(selected) && |parts| >= 1
    requires forall k :: 0 <= k < |parts| ==> '{' !in parts[k]
    requires '{' !in selected
    ensures PromptToSubmit(Some(selected), JoinWith(parts, Placeholder)).Some?
    ensures !Contains(PromptToSubmit(Some(selected), JoinWith(parts, Placeholder)).value, Placeholder)
  {
    assert Placeholder[0] == '{';
    forall k | 0 <= k < |parts| - 1 ensures !Contains(parts[k] + Placeholder[..|Placeholder| - 1], Placeholder) {
      HeadAbsentStartsNothing(parts[k], Placeholder);
    }
    HeadAbsentNoOccurrence(parts[|parts| - 1], Placeholder);
    EveryPlaceholderReplaced(selected, parts);
    JoinWithAvoids(parts, selected, '{');
    HeadAbsentNoOccurrence(JoinWith(parts, selected), Placeholder);
  }

  /** The replacement is one left-to-right pass, so a selected text without a
      placeholder can still complete one across its ends: `s` put in place of
      the placeholder of `{{{{selectedText}}electedText}}` gives
      `{{selectedText}}`. */
  lemma SelectionCanCompletePlaceholder(selected: string, before: string, after: string)
    requires selected == "s" && before == "{{" && after == "electedText}}"
    ensures PromptToSubmit(Some(selected), before + Placeholder + after) == Some(Placeholder)
  {
    assert !IsRustWhitespace(selected[0]);
    BracesStartNoPlaceholder();
    FirstPlaceholderReplaced(selected, before, after);
    assert ReplaceAll(after, Placeholder, selected) == after by {
      assert |after| < |Placeholder|;
    }
    PlaceholderSpelledAcross();
  }

  lemma PlaceholderSpelledAcross()
    ensures "{{" + "s" + "electedText}}" == Placeholder
  {
  }

  lemma BracesStartNoPlaceholder()
    ensures !Contains("{{" + Placeholder[..|Placeholder| - 1], Placeholder)
  {
    var w := "{{" + Placeholder[..|Placeholder| - 1];
    assert |w| == 17;
    forall i | 0 <= i <= |w| - |Placeholder| ensures !OccursAt(w, Placeholder, i) {
      assert w[i..i + 16][2] == w[i + 2] == '{';
    }
  }

  /** `submit_prompt`: the provider configuration is looked up by name and
      the prompt goes to the model it describes; `llm` is the model's answer
      and stands for building the instance and the chat call. */
  function SubmitPrompt(providers: seq<ProviderConfig>, providerName: string, prompt: string,
                        llm: (ProviderConfig, string) -> Result<string>): Result<string>
  {
    match FindProvider(providers, providerName)
    case Err(e) => Err(e)
    case Ok(config) => llm(config, prompt)
  }

  /** `handle_prompt_command`; `emit` is the outcome of sending the answer to
      the main window. */
  function HandlePromptCommand(selected: Option<string>, providers: seq<ProviderConfig>,
                               providerName: string, template: string,
                               llm: (ProviderConfig, string) -> Result<string>, emit: Outcome): Outcome
  {
    match PromptToSubmit(selected, template)
    case None => Pass
    case Some(prompt) =>
      match SubmitPrompt(providers, providerName, prompt, llm)
      case Err(e) => Fail("Error processing prompt: " + e)
      case Ok(_) =>
        if emit.Fail? then Fail("Failed to emit prompt-response to main window: " + emit.error) else Pass
  }

  /** `execute_custom_prompt`. */
  function ExecuteCustomPrompt(shortcuts: seq<ShortcutConfig>, providers: seq<ProviderConfig>,
                               name: string, selected: Option<string>,
                               llm: (ProviderConfig, string) -> Result<string>, emit: Outcome): Outcome
  {
    match LookupPrompt(shortcuts, name)
    case Err(e) => Fail(e)
    case Ok((providerName, template)) => HandlePromptCommand(selected, providers, providerName, template, llm, emit)
  }

  /** Without a usable selection a registered prompt succeeds without the
      model being consulted: the outcome is the same whatever the model
      would answer. */
  lemma NoSelectionSubmitsNothing(shortcuts: seq<ShortcutConfig>, providers: seq<ProviderConfig>,
                                  name: string, selected: Option<string>,
                                  llm1: (ProviderConfig, string) -> Result<string>,
                                  llm2: (ProviderConfig, string) -> Result<string>, emit: Outcome)
    requires LookupPrompt(shortcuts, name).Ok?
    requires NoSelection(selected)
    ensures ExecuteCustomPrompt(shortcuts, providers, name, selected, llm1, emit) == Pass
    ensures ExecuteCustomPrompt(shortcuts, providers, name, selected, llm1, emit) ==
      ExecuteCustomPrompt(shortcuts, providers, name, selected, llm2, emit)
  {
    if selected.Some? {
      TrimEmptyIff(selected.value, IsRustWhitespace);
    }
  }

  /** With a usable selection and a template without the placeholder, the
      model receives the template unchanged. */
  lemma TemplateWithoutPlaceholderSubmittedAsIs(selected: string, template: string)
    requires exists k :: 0 <= k < |selected| && !IsRustWhitespace(selected[k])
    requires !Contains(template, Placeholder)
    ensures PromptToSubmit(Some(selected), template) == Some(template)
  {
  }

  /** A prompt whose provider configuration is missing fails with the
      lookup's message. */
  lemma MissingProviderFails(selected: string, providers: seq<ProviderConfig>, providerName: string,
                             template: string, llm: (ProviderConfig, string) -> Result<string>, emit: Outcome)
    requires exists k :: 0 <= k < |selected| && !IsRustWhitespace(selected[k])
    requires forall i :: 0 <= i < |providers| ==> providers[i].name != providerName
    ensures HandlePromptCommand(Some(selected), providers, providerName, template, llm, emit) ==
      Fail("Error processing prompt: " + "LLM configuration not found")
  {
    var prompt := PromptToSubmit(Some(selected), template);
    assert prompt.Some?;
    var found := FindProvider(providers, providerName);
    assert found.Err? && found.error == "LLM configuration not found";
    assert SubmitPrompt(providers, providerName, prompt.value, llm) == Err(found.error);
  }
}
