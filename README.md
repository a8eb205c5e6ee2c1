# Quillbert shortcut engine, in Dafny

Quillbert is a desktop helper. It captures the text selected in another
application and sends it, wrapped in a user-defined prompt template, to a
configured LLM provider. The user reaches it through keyboard shortcuts of two
kinds:

- system shortcuts (toggle the window, read the cursor position, read the
  selection, ...) which the Rust backend registers with the operating system;
- custom prompts, which the web front end matches itself on key-down events.

This project models the engine behind those shortcuts, together with the small
registry and form logic around it. Each source file has its own module:

| module | file | models |
|---|---|---|
| `Wrappers` | `wrappers.dfy` | `Option`, `Result` and `Outcome`, the outcome of an I/O call |
| `Strings` | `strings.dfy` | ASCII case mapping, JavaScript and Rust whitespace, trim, split/join, replace-all, whitespace-run split |
| `KeySets` | `key_sets.dfy` | an insertion-ordered JavaScript `Set<string>` as a duplicate-free sequence |
| `KeyboardUtils` | `keyboard_utils.dfy` | `normalizeKey`, `isModifierKey`, `sortKeys`, the `+`-joined wire codec, `formatKey` |
| `ShortcutEditor` | `shortcut_editor.dfy` | the capture session of `useShortcutEditor`, as a class |
| `ShortcutListener` | `shortcut_listener.dfy` | the key-down matcher of `useShortcutListener`, as a class |
| `AppSettings` | `settings.dfy` | `Settings`, the defaults, `SettingsManager` and `AppState::register_llm` |
| `Query` | `query.dfy` | `register_custom_prompt`, `get_custom_prompts`, `execute_custom_prompt`, `handle_prompt_command` |
| `GlobalShortcuts` | `global_shortcuts.dfy` | startup filter and dispatch, `handle_shortcut_commands`, pasting, `update_shortcut` |
| `FormChecks` | `form_checks.dfy` | ordered first-failure validators, blank test, index-based list edits |
| `LlmConfigurations` | `llm_configurations.dfy` | the settings page's provider list and its form |
| `App` | `app.dfy` | the main page's provider list, kept locally |
| `CustomPrompts` | `custom_prompts.dfy` | the settings page's prompt list and its shortcut field |
| `SelectedTextPanel` | `selected_text_panel.dfy` | excerpt, word count and character count of the selection |

Pure code (the key codec, the validators, the projections) is written as
functions with lemmas. Code that updates state in place is written as classes
with `modifies` clauses:

- the editor's and the listener's held-key sets;
- the settings manager's in-memory and on-disk settings;
- the plugin's handler list;
- the three forms.

The calls these make to things outside the model are parameters of the
methods:

- file writes, `emit`, the global-shortcut plugin and the LLM builder are each
  an `Outcome` parameter;
- `Shortcut::parse` is a function parameter;
- the LLM chat call is a function parameter.

The settings manager has two fields:

- `settings`, the in-memory copy;
- `onDisk`, the file.

With both fields, the contracts can state the write order: `save` writes the
file before it changes memory, while `update_shortcuts`, `add_llm_config` and
`update_ui_config` change memory first and then write the file.

Where a page reloads its data after a backend call, the model reloads it from
the manager's in-memory settings. The parent component that does the reload is
not part of this model.

## Model

| member | source | states |
|---|---|---|
| KeyboardUtils.NormalizeKey | src/utils/keyboardUtils.ts:48-78 | a code in the key map gives its mapped name; any other code loses its first matching prefix, or is returned unchanged |
| KeyboardUtils.StripCodePrefix | src/utils/keyboardUtils.ts:65-77 | `Key`, `Digit` and `Numpad` are tried in that order, and the result with the stripped prefix restores the code |
| KeyboardUtils.NormalizeSideVariants | src/utils/keyboardUtils.ts:49-57 | left and right Control, Shift, Alt and Meta normalise to the same name: Control, Shift, Alt and Command |
| KeyboardUtils.NormalizeStripsPrefix | src/utils/keyboardUtils.ts:61-77 | for a code outside the key map, the normalised key with the stripped prefix put back is the code |
| KeyboardUtils.IsModifierKey | src/utils/keyboardUtils.ts:102-104 | `isModifierKey` as membership in the five modifier names; `KeyboardUtils.IsModifierKeyIff` states it |
| KeyboardUtils.IsModifierKeyIff | src/utils/keyboardUtils.ts:102-104 | a key is a modifier iff it is Control, Shift, Alt, Meta or Command |
| KeyboardUtils.IndexOfKeySpec | src/utils/keyboardUtils.ts:111-112 | `indexOf`: -1 iff absent, otherwise the first position of the key |
| KeyboardUtils.CompareKeysIsRankOrder | src/utils/keyboardUtils.ts:108-118 | the comparator's sign is the order of ranks: Control < Alt < Shift < Meta < Command < every non-modifier |
| KeyboardUtils.ModifierIffRanked | src/utils/keyboardUtils.ts:102-118 | the modifiers are exactly the keys ranked before the non-modifiers |
| KeyboardUtils.SortKeys | src/utils/keyboardUtils.ts:107-119 | `sortKeys` as a stable insertion sort on the comparator's ranks; `KeyboardUtils.SortKeysSpec` states what it gives and the lemmas below relate it to itself and to any rank-ordered rearrangement |
| KeyboardUtils.SortKeysSpec | src/utils/keyboardUtils.ts:107-119 | sortKeys gives a permutation of its input, ordered by rank, with the keys of each rank in their input order (a stable sort) |
| KeyboardUtils.ModifiersFirst | src/utils/keyboardUtils.ts:107-119 | in the sorted keys no modifier comes after a non-modifier |
| KeyboardUtils.SortKeysIdempotent | src/utils/keyboardUtils.ts:107-119 | sorting sorted keys changes nothing |
| KeyboardUtils.SortKeysOfSorted | src/utils/keyboardUtils.ts:107-119 | keys already in rank order are returned unchanged |
| KeyboardUtils.SortedUnique | src/utils/keyboardUtils.ts:107-119 | two rank-ordered sequences with the same keys of each rank, in the same order, are equal |
| KeyboardUtils.SortKeysOrderIndependent | src/utils/keyboardUtils.ts:107-119 | the sorted result depends only on the order of the keys within each rank |
| KeyboardUtils.SortKeysExample | src/utils/keyboardUtils.ts:107-119 | `["K", "Control"]` and `["Control", "K"]` both sort to `["Control", "K"]` |
| KeyboardUtils.TauriToKeysArray | src/utils/keyboardUtils.ts:122-140 | `tauriToKeysArray`: split on `+`, then a modifier name or title case per token; `KeyboardUtils.DecodeSpec` states it token by token and the round-trip lemmas tie it to `KeysArrayToTauri` |
| KeyboardUtils.DecodeSpec | src/utils/keyboardUtils.ts:122-140 | `""` decodes to no keys; otherwise there is one key per `+`-separated token, and each token's lower-cased form picks a modifier or title case |
| KeyboardUtils.TitleCaseIgnoresCase | src/utils/keyboardUtils.ts:137 | title case does not depend on the token's case, and lower-casing it gives the lower-cased token |
| KeyboardUtils.KeysArrayToTauri | src/utils/keyboardUtils.ts:143-161 | `keysArrayToTauri`: each key's wire token, lower-cased and `+`-joined; its partner is `TauriToKeysArray`, through `KeyboardUtils.WireRoundTrip` and `KeyboardUtils.KeysRoundTrip` |
| KeyboardUtils.EncodeThreeKeys | src/utils/keyboardUtils.ts:143-161 | three keys are encoded token by token, with `+` between the tokens |
| KeyboardUtils.EncodeIsLowerCase | src/utils/keyboardUtils.ts:143-161 | the wire string is lower-case |
| KeyboardUtils.LowerJoin | src/utils/keyboardUtils.ts:143-161 | lower-casing a `+`-joined string lower-cases each piece |
| KeyboardUtils.EncodeDecodeToken | src/utils/keyboardUtils.ts:122-161 | encoding a decoded token gives the lower-cased token, unless the token spells out `command` or `control` |
| KeyboardUtils.WireRoundTrip | src/utils/keyboardUtils.ts:122-161 | decoding, then encoding, gives the lower-cased wire string when no token spells out `command` or `control` |
| KeyboardUtils.WireRoundTripFailsForLongModifierName | src/utils/keyboardUtils.ts:127-129 | `command` decodes to `Command`, which encodes back as `cmd` |
| KeyboardUtils.DecodeEncodeKey | src/utils/keyboardUtils.ts:122-161 | a modifier, or a key already in first-upper-rest-lower form, decodes back to itself from its wire token |
| KeyboardUtils.KeysRoundTrip | src/utils/keyboardUtils.ts:122-161 | keys that are all of that canonical form decode back to themselves from their wire string |
| KeyboardUtils.ArrowUpDecodesToArrowup | src/utils/keyboardUtils.ts:137 | `ArrowUp` is stored as `arrowup` and decodes to `Arrowup` |
| KeyboardUtils.NormalizedCodeRoundTrips | src/utils/keyboardUtils.ts:65-77 | a letter, digit or numpad code normalises to one character, and that character round-trips through the wire string |
| KeyboardUtils.FormatKey | src/utils/keyboardUtils.ts:81-100 | `formatKey`: the platform's symbol when the key has one, else the key without a leading `Key`, `Digit` or `Numpad`, else the key; `KeyboardUtils.FormatModifiers` and `KeyboardUtils.ArrowUpDisplay` state its cases |
| KeyboardUtils.FormatCodeCharacter | src/utils/keyboardUtils.ts:81-100 | a letter, digit or numpad code, and the key it normalises to, are shown as their one character (`KeyA` as `A`, `Digit1` as `1`) |
| KeyboardUtils.FormatModifiers | src/utils/keyboardUtils.ts:20-32 | every modifier has a symbol: one character on a Mac, `Ctrl` or `Win` elsewhere; Meta and Command share one |
| KeyboardUtils.ArrowUpDisplay | src/utils/keyboardUtils.ts:40 | `ArrowUp` shows as an arrow, but the decoded `Arrowup` shows as the word itself |
| KeySets.Add | src/hooks/useShortcutEditor.ts:121 | `Set.add` keeps the set duplicate-free and adds exactly the key |
| KeySets.Remove | src/hooks/useShortcutEditor.ts:154 | `Set.delete` removes exactly the key, and only that key |
| KeySets.RemoveAt | src/hooks/useShortcutListener.ts:101 | deleting a held key removes its one position and keeps the order of the others |
| KeySets.ReleaseAndPressMovesToEnd | src/hooks/useShortcutEditor.ts:121-154 | releasing a key and pressing it again moves it to the end of the insertion order |
| KeySets.Filter | src/hooks/useShortcutEditor.ts:125-126 | `filter` keeps exactly the keys satisfying the predicate |
| KeySets.FilterPartition | src/hooks/useShortcutEditor.ts:125-126 | the modifiers and the other keys together make up the held keys |
| ShortcutEditor.IsReserved | src/hooks/useShortcutEditor.ts:79-87 | a candidate is reserved iff some table entry has its length and matches it position by position, ignoring case |
| ShortcutEditor.ReservedOnlyPairs | src/hooks/useShortcutEditor.ts:7-43 | only two-key candidates can be reserved |
| ShortcutEditor.ControlCReserved | src/hooks/useShortcutEditor.ts:15 | Control+C is reserved |
| ShortcutEditor.Take2 | src/hooks/useShortcutEditor.ts:128-134 | the cap keeps the first two keys, or all of them when there are fewer |
| ShortcutEditor.Candidate | src/hooks/useShortcutEditor.ts:123-138 | the candidate of a key-down; `ShortcutEditor.CandidateShape` and `ShortcutEditor.CandidateKeepsAll` state what it holds |
| ShortcutEditor.CandidateShape | src/hooks/useShortcutEditor.ts:123-138 | the candidate is the first two held modifiers followed by the first two other held keys: at most four keys, none repeated, all held |
| ShortcutEditor.CandidateKeepsAll | src/hooks/useShortcutEditor.ts:123-138 | with at most two keys of each kind held, the candidate holds all of them |
| ShortcutEditor.Accepts | src/hooks/useShortcutEditor.ts:64-92 | the checks of `saveShortcut` for the two modes; the two `Accepts…Iff` lemmas state each mode in both directions |
| ShortcutEditor.AcceptsSystemIff | src/hooks/useShortcutEditor.ts:68-92 | a system shortcut is accepted iff it has a modifier, a non-modifier, and is not reserved |
| ShortcutEditor.AcceptsCustomPromptIff | src/hooks/useShortcutEditor.ts:64-92 | a custom-prompt shortcut is accepted iff it is non-empty and not reserved |
| ShortcutEditor.SystemAcceptsOnlyWhatCustomAccepts | src/hooks/useShortcutEditor.ts:64-92 | system mode is the stricter of the two |
| ShortcutEditor.CommittedSystemShortcut | src/hooks/useShortcutEditor.ts:96 | an accepted system shortcut sorts to a permutation that starts with a modifier and ends with a non-modifier |
| ShortcutEditor.LoneModifierRejected | src/hooks/useShortcutEditor.ts:70-75 | Control alone is not a system shortcut |
| ShortcutEditor.ReservedPairRejected | src/hooks/useShortcutEditor.ts:89-92 | Control+C is rejected as reserved |
| ShortcutEditor.SingleKeyPromptAccepted | src/hooks/useShortcutEditor.ts:64-67 | a single key is a valid custom-prompt shortcut |
| ShortcutEditor.Editor.constructor | src/hooks/useShortcutEditor.ts:52-54 | a new session is not editing and has no keys |
| ShortcutEditor.Editor.StartEditing | src/hooks/useShortcutEditor.ts:56-59 | editing starts with no keys; the held set is kept |
| ShortcutEditor.Editor.CancelEditing | src/hooks/useShortcutEditor.ts:104-107 | editing stops with no keys; the held set is kept |
| ShortcutEditor.Editor.KeyDown | src/hooks/useShortcutEditor.ts:110-138 | while editing, the normalised key is held and the candidate is recomputed from the held set; otherwise nothing changes |
| ShortcutEditor.Editor.KeyUp | src/hooks/useShortcutEditor.ts:149-155 | while editing, the key is released and the candidate kept; otherwise nothing changes |
| ShortcutEditor.Editor.SaveShortcut | src/hooks/useShortcutEditor.ts:61-102 | keys are handed over iff editing and the candidate is accepted; they are then the sorted candidate and the session closes; a rejection changes nothing |
| ShortcutEditor.Editor.Unmount | src/hooks/useShortcutEditor.ts:165-171 | unmounting leaves the session closed and empty, like cancelling |
| ShortcutEditor.ShiftAltPSession | src/hooks/useShortcutEditor.ts:56-138 | pressing Shift, Alt, P and saving gives `["Alt", "Shift", "P"]`, stored as `alt+shift+p` |
| ShortcutEditor.StaleHeldKeySession | src/hooks/useShortcutEditor.ts:104-155 | a key released while no session is open stays held and shows up in the next session |
| ShortcutListener.FirstPromptMatch | src/hooks/useShortcutListener.ts:49-59 | no name iff no entry is a `Prompt` bound to the string; otherwise the name of the first such entry |
| ShortcutListener.SingleKeyLookupRepeatsFirst | src/hooks/useShortcutListener.ts:72-83 | with one key held, the single-key string equals the full comparison string |
| ShortcutListener.Listener.constructor | src/hooks/useShortcutListener.ts:15-20 | a new listener holds no keys and keeps the shortcuts and the prompt in progress it is given |
| ShortcutListener.Listener.Attach | src/hooks/useShortcutListener.ts:104-129 | re-attaching, when the shortcuts or the prompt in progress change, takes the new values and clears the held set (the old cleanup and the new set-up both clear it) |
| ShortcutListener.Listener.SetProcessingPrompt | src/hooks/useShortcutListener.ts:95-129 | a different prompt in progress re-attaches the listeners and empties the held set; the same value keeps it |
| ShortcutListener.Listener.Detach | src/hooks/useShortcutListener.ts:123-128 | detaching clears the held set |
| ShortcutListener.Listener.KeyDown | src/hooks/useShortcutListener.ts:23-96 | a handled event, a text-field target, or a prompt in progress changes nothing and runs nothing; otherwise the key is held and the first prompt bound to the sorted held keys runs |
| ShortcutListener.Listener.KeyUp | src/hooks/useShortcutListener.ts:99-102 | a key-up always releases the key |
| ShortcutListener.PressOrderIrrelevant | src/hooks/useShortcutListener.ts:39-59 | holding the same modifiers in any order, with the other keys in the same order, runs the same prompt |
| ShortcutListener.HeldCommittedKeysRun | src/hooks/useShortcutListener.ts:39-70 | holding exactly the keys a prompt was saved with runs a prompt |
| ShortcutListener.SummarizeSession | src/hooks/useShortcutListener.ts:23-70 | with no prompt in progress, pressing Shift, Control, S runs the prompt bound to `ctrl+shift+s` on the third key |
| ShortcutListener.BusyPeriodForgetsHeldKeys | src/hooks/useShortcutListener.ts:23-129 | Shift and Control held, a prompt starts (the S pressed then is ignored) and ends: the next S is the only key held, so `s` is looked up and no prompt runs |
| ShortcutListener.SingleKeyPromptRunsAlone | src/hooks/useShortcutListener.ts:39-70 | a prompt bound to `g` runs on G alone and not on Shift+G |
| ShortcutListener.ClearedPromptRunsOnEmptyCode | src/hooks/useShortcutListener.ts:36-59 | a prompt with a cleared shortcut runs on a key event whose code is empty |
| AppSettings.DefaultSettings | src-tauri/src/settings.rs:57-96 | the default settings; `AppSettings.DefaultSettingsShape` states them |
| AppSettings.DefaultSettingsShape | src-tauri/src/settings.rs:57-96 | the defaults have no providers; four named, bound system shortcuts with distinct names; a light theme; and no window position or size |
| AppSettings.FirstIndexOfName | src-tauri/src/query.rs:77 | `position`: no index iff no entry has the name, otherwise the first index with it |
| AppSettings.Position | src-tauri/src/query.rs:77 | the search loop finds the first index with the name |
| AppSettings.Upsert | src-tauri/src/query.rs:77-81 | the find-then-replace-or-push update of the shortcuts; `AppSettings.UpsertShape`, `AppSettings.UpsertLookup` and `AppSettings.UpsertIdempotent` state it |
| AppSettings.UpsertShape | src-tauri/src/query.rs:77-81 | an existing name's first entry is replaced in place with the length kept; a new name is appended |
| AppSettings.UpsertLookup | src-tauri/src/query.rs:77-81 | after an upsert, the name finds the new entry and every other name finds what it found before |
| AppSettings.UpsertIdempotent | src-tauri/src/query.rs:77-81 | registering the same entry twice is the same as once |
| AppSettings.WithoutName | src-tauri/src/settings.rs:174 | `retain` keeps exactly the providers with another name (the order is stated by the two lemmas below) |
| AppSettings.WithoutNameConcat | src-tauri/src/settings.rs:174 | `retain` on a concatenation is the concatenation of the two `retain`s, so it keeps the order of what it keeps |
| AppSettings.WithoutNameSingle | src-tauri/src/settings.rs:174 | one provider is kept iff its name differs |
| AppSettings.AddProvider | src-tauri/src/settings.rs:172-179 | the retain-then-push update of the providers; `AppSettings.AddProviderSpec` states it |
| AppSettings.AddProviderSpec | src-tauri/src/settings.rs:172-179 | adding is exactly `retain` of the other names followed by the config: the config is last and the only provider with its name, and every other name keeps its providers in order |
| AppSettings.FindProvider | src-tauri/src/settings.rs:162-170 | the first provider with the name, or "LLM configuration not found" iff there is none |
| AppSettings.FindAfterAdd | src-tauri/src/settings.rs:162-179 | a config just added is the one found by its name |
| AppSettings.SettingsManager.constructor | src-tauri/src/settings.rs:104-124 | settings are the stored ones, or the defaults when there is no file; memory and file agree |
| AppSettings.SettingsManager.Save | src-tauri/src/settings.rs:126-136 | a failed write changes nothing; a successful one sets memory and file |
| AppSettings.SettingsManager.UpdateShortcuts | src-tauri/src/settings.rs:151-160 | only the shortcuts change in memory, even when the write fails; the file follows only on success |
| AppSettings.SettingsManager.GetLlmConfig | src-tauri/src/settings.rs:162-170 | the result is the lookup in the in-memory providers |
| AppSettings.SettingsManager.AddLlmConfig | src-tauri/src/settings.rs:172-179 | only the providers change, by the retain-then-push update |
| AppSettings.SettingsManager.UpdateUiConfig | src-tauri/src/settings.rs:190-196 | only the UI settings change |
| AppSettings.AppState.RegisterLlm | src-tauri/src/settings.rs:212-226 | a config whose provider cannot be built is rejected with no change; otherwise it is added |
| Query.SubmitPrompt | src-tauri/src/settings.rs:228-248 | the provider is looked up by name and the prompt goes to the model it names; `Query.MissingProviderFails` states the failing lookup |
| Query.EntryRoundTrip | src-tauri/src/query.rs:61-68 | the entry built from a custom prompt is read back as that prompt |
| Query.RegisterCustomPrompt | src-tauri/src/query.rs:54-100 | the shortcuts are upserted with a `Prompt` entry, even if the write fails; the result is the write error, the emit error, or the success message |
| Query.CustomPrompts | src-tauri/src/query.rs:112-130 | never more prompts than entries; `Query.CustomPromptsMembers` and `Query.CustomPromptsConcat` state which and in what order |
| Query.CustomPromptsMembers | src-tauri/src/query.rs:112-130 | the prompts read back are exactly the `Prompt` entries' records |
| Query.CustomPromptsConcat | src-tauri/src/query.rs:112-130 | the projection keeps registry order |
| Query.FreshPromptReadBack | src-tauri/src/query.rs:61-130 | registering a new name appends its record to the prompts read back |
| Query.ExistingPromptReadBack | src-tauri/src/query.rs:61-130 | re-registering a name puts its record where the old entry was |
| Query.LookupPrompt | src-tauri/src/query.rs:211-226 | the first entry with the name: its provider and template if it is a `Prompt`; "Custom prompt '…' not found" when there is none |
| Query.LookupAfterRegister | src-tauri/src/query.rs:61-81 | after registering, the prompt is found under its name, even where a system command had it |
| Query.SystemCommandIsNotAPrompt | src-tauri/src/query.rs:224-226 | a name held by a system command gives "'…' is not a custom prompt" |
| Query.PromptToSubmit | src-tauri/src/query.rs:157-167 | nothing is submitted iff the selection is absent or whitespace; a template without the placeholder is submitted as it is; every placeholder is replaced by the lemmas below |
| Query.FirstPlaceholderReplaced | src-tauri/src/query.rs:167 | the first placeholder is replaced by the selection and the scan goes on after it |
| Query.EveryPlaceholderReplaced | src-tauri/src/query.rs:157-167 | for a template made of placeholder-free parts joined by placeholders, the prompt is the same parts joined by the selection |
| Query.NoPlaceholderLeft | src-tauri/src/query.rs:157-167 | when neither the parts nor the selection hold a `{`, no placeholder is left in the prompt |
| Query.SelectionCanCompletePlaceholder | src-tauri/src/query.rs:167 | a selection can spell a new placeholder together with the text around it: `{{` + placeholder + `electedText}}` with the selection `s` gives the placeholder |
| Query.ReplaceAllAbsentIf | src-tauri/src/query.rs:167 | replacing an absent placeholder changes nothing |
| Query.HandlePromptCommand | src-tauri/src/query.rs:142-198 | no usable selection succeeds at once; otherwise the prompt is submitted, and a model or emit failure gives its message; `Query.NoSelectionSubmitsNothing` and `Query.MissingProviderFails` state these |
| Query.ExecuteCustomPrompt | src-tauri/src/query.rs:200-227 | the lookup and then the prompt command; `Query.LookupPrompt`, `Query.SystemCommandIsNotAPrompt` and the lemmas of `HandlePromptCommand` state it |
| Query.NoSelectionSubmitsNothing | src-tauri/src/query.rs:157-164 | without a selection the prompt succeeds without calling the LLM |
| Query.TemplateWithoutPlaceholderSubmittedAsIs | src-tauri/src/query.rs:167 | a template without `{{selectedText}}` is submitted unchanged |
| Query.MissingProviderFails | src-tauri/src/query.rs:191-194 | an unknown provider name fails with "Error processing prompt: LLM configuration not found" |
| GlobalShortcuts.GlobalEntriesSpec | src-tauri/src/shortcut.rs:15-21 | exactly the bound, non-prompt entries (their order is stated by the two lemmas below) |
| GlobalShortcuts.GlobalEntriesConcat | src-tauri/src/shortcut.rs:15-21 | the filter of a concatenation is the concatenation of the filters, so stored order is kept |
| GlobalShortcuts.GlobalEntriesSingle | src-tauri/src/shortcut.rs:17-21 | one entry is kept iff it is bound and not a prompt |
| GlobalShortcuts.EnabledShortcuts | src-tauri/src/shortcut.rs:7-31 | the startup list of hotkeys; `GlobalShortcuts.EnabledShortcutsSpec` states it |
| GlobalShortcuts.EnabledShortcutsSpec | src-tauri/src/shortcut.rs:15-31 | all global entries parse iff the list is built; it then holds, position by position, each one's string, command and parsed hotkey |
| GlobalShortcuts.EnabledAreGlobal | src-tauri/src/shortcut.rs:17-21 | no unbound entry or prompt is registered at startup |
| GlobalShortcuts.DefaultsAllEnabled | src-tauri/src/shortcut.rs:15-31 | the defaults register four hotkeys in stored order |
| GlobalShortcuts.OnGlobalShortcut | src-tauri/src/shortcut.rs:39-49 | a released key runs nothing; `GlobalShortcuts.OnGlobalShortcutSpec` states the rest |
| GlobalShortcuts.OnGlobalShortcutSpec | src-tauri/src/shortcut.rs:39-49 | a command runs iff the event is a press of a registered hotkey; it is then the command of the first such entry |
| GlobalShortcuts.StartupHandlerRunsNoPrompt | src-tauri/src/shortcut.rs:15-49 | the startup handler never runs a prompt |
| GlobalShortcuts.CommandEffect | src-tauri/src/shortcut.rs:60-111 | the effect of each command; `GlobalShortcuts.PasteOnlyStoredAnswer` states when it pastes and what |
| GlobalShortcuts.PasteOnlyStoredAnswer | src-tauri/src/shortcut.rs:88-103 | a paste happens iff the command is `PasteOutput` and the stored answer is present and non-empty; that answer is then pasted |
| GlobalShortcuts.HandleShortcutCommand | src-tauri/src/shortcut.rs:60-111 | toggling the window stores a captured selection; no other command changes the state |
| GlobalShortcuts.PasteOutputCommand | src-tauri/src/shortcut.rs:115-118 | a failed paste is reported with its cause; its contract is carried by `GlobalShortcuts.PasteRecentResponse` |
| GlobalShortcuts.PasteRecentResponse | src-tauri/src/shortcut.rs:121-137 | succeeds iff a non-empty answer is stored and the paste succeeds |
| GlobalShortcuts.PasteErrorsDistinct | src-tauri/src/shortcut.rs:127-136 | a missing answer, an empty answer and a failed paste give three different errors |
| GlobalShortcuts.WithoutHotkeySpec | src-tauri/src/shortcut.rs:196-198 | unregistering removes exactly the handlers of that hotkey |
| GlobalShortcuts.StaleHotkey | src-tauri/src/shortcut.rs:186-191 | an old hotkey is unregistered iff the name exists, is bound and is not a prompt |
| GlobalShortcuts.StaleHotkeyNeverPrompt | src-tauri/src/shortcut.rs:191 | no hotkey is unregistered for a new name or a prompt |
| GlobalShortcuts.UpdateShortcut | src-tauri/src/shortcut.rs:167-241 | a bad new string, a bad stored string or a failed unregistration changes nothing; otherwise the entry is upserted, the old hotkey removed, and a non-prompt registered; the first failure is the result |
| GlobalShortcuts.SaveAndRegister | src-tauri/src/shortcut.rs:207-240 | after the old hotkey is gone: the shortcuts are saved, a non-prompt hotkey registered and both windows notified, stopping at the first failure |
| GlobalShortcuts.ShortcutPlugin.constructor | src-tauri/src/shortcut.rs:36-52 | the plugin starts with the given handlers |
| FormChecks.BlankIff | src/components/settings/LLMConfigurations.tsx:42 | `!s.trim()` holds iff every character is whitespace |
| FormChecks.FirstFailureSpec | src/components/settings/LLMConfigurations.tsx:41-54 | no message iff no check fails; otherwise the message of the first failing check |
| FormChecks.FirstFailureOfSix | src/components/settings/LLMConfigurations.tsx:41-54 | six checks act as a chain of six early returns |
| FormChecks.FirstFailureOfThree | src/components/settings/CustomPrompts.tsx:68-74 | three checks act as a chain of three early returns |
| FormChecks.WithoutIndex | src/App.tsx:108 | `filter((_, idx) => idx !== index)` drops that one position, or nothing when it is out of range |
| FormChecks.ReplaceAt | src/App.tsx:82-84 | `map((cfg, idx) => idx === index ? value : cfg)` replaces that one position, or nothing when it is out of range |
| LlmConfigurations.ValidateConfig | src/components/settings/LLMConfigurations.tsx:41-54 | `validateConfig` as the first failure of its checks; the two lemmas below state it |
| LlmConfigurations.ValidateConfigOrder | src/components/settings/LLMConfigurations.tsx:41-54 | the validator is the chain of six checks with their messages, in order |
| LlmConfigurations.ValidateConfigNoneIff | src/components/settings/LLMConfigurations.tsx:41-54 | a config is valid iff every check passes |
| LlmConfigurations.AddingDuplicateNameRejected | src/components/settings/LLMConfigurations.tsx:43-47 | when adding, any entry with the same name makes it fail uniqueness |
| LlmConfigurations.EditingIgnoresOnlyItself | src/components/settings/LLMConfigurations.tsx:43-47 | when editing entry i, the name is taken iff it is taken among the other entries |
| LlmConfigurations.DefaultConfigRejected | src/components/settings/LLMConfigurations.tsx:11-18 | the empty form is rejected for its blank name |
| LlmConfigurations.Reregister | src/components/settings/LLMConfigurations.tsx:88-111 | the delete loop: each remaining config registered in turn, stopping at the first failure; `LlmConfigurations.ReregisterKeepsNames` states what it keeps |
| LlmConfigurations.ReregisterKeepsNames | src/components/settings/LLMConfigurations.tsx:94-96 | re-registering configs never removes a provider name |
| LlmConfigurations.DeleteCannotRemove | src/components/settings/LLMConfigurations.tsx:88-111 | after a delete, the deleted config's name is still held by a provider |
| LlmConfigurations.ConfigForm.constructor | src/components/settings/LLMConfigurations.tsx:24-26 | the form starts empty and not editing |
| LlmConfigurations.ConfigForm.HandleSaveConfig | src/components/settings/LLMConfigurations.tsx:56-80 | an invalid form only sets the error; otherwise the config is registered, and on success the list is reloaded and the form reset |
| LlmConfigurations.ConfigForm.HandleEditConfig | src/components/settings/LLMConfigurations.tsx:82-86 | editing loads the entry and clears the error |
| LlmConfigurations.ConfigForm.HandleDeleteConfig | src/components/settings/LLMConfigurations.tsx:88-111 | every config except the deleted one is registered again, in order; on success the list is reloaded and an edit of the deleted index reset |
| LlmConfigurations.ConfigForm.HandleCancelEdit | src/components/settings/LLMConfigurations.tsx:113-117 | cancelling resets the form, the index and the error |
| App.ConfigManager.constructor | src/App.tsx:35-38 | the manager starts with no configs and an empty form |
| App.ConfigManager.HandleSaveConfig | src/App.tsx:68-99 | an invalid form or a failed registration only sets the error; otherwise the edited entry is replaced, or the config appended, and the form reset |
| App.ConfigManager.HandleEditConfig | src/App.tsx:101-105 | editing loads the entry and clears the error |
| App.ConfigManager.HandleDeleteConfig | src/App.tsx:107-113 | the entry at the index is removed; the form is reset only if it was being edited |
| App.ConfigManager.HandleCancelEdit | src/App.tsx:115-119 | cancelling resets the form, the index and the error |
| App.SavedListShape | src/App.tsx:81-87 | an edit replaces only the edited entry and keeps the length; an add appends |
| App.DeleteShape | src/App.tsx:108 | a delete removes one position and keeps the order of the rest |
| App.SaveAfterDeleteBelowOverwritesNext | src/App.tsx:107-113 | after deleting below the edited entry, a save that passes validation (the edit gave the entry a name no other entry holds) overwrites the entry after it and keeps the edited one |
| App.SaveAtStaleLastIndexDropsEdit | src/App.tsx:81-84 | when the stale index is past the end, a save that passes validation leaves the local list unchanged (the backend registration and the form reset still happen) |
| App.StaleSameNameRejected | src/App.tsx:55-73 | after deleting below the edited entry, saving the entry under its own name is rejected with "Configuration name must be unique" |
| CustomPrompts.ValidatePrompt | src/components/settings/CustomPrompts.tsx:68-74 | `validatePrompt` as the first failure of its checks; `CustomPrompts.ValidatePromptOrder` states it |
| CustomPrompts.ValidatePromptOrder | src/components/settings/CustomPrompts.tsx:68-74 | the validator checks the name, provider and template in that order, and ignores the shortcut |
| CustomPrompts.DefaultPromptRejected | src/components/settings/CustomPrompts.tsx:15-20 | the empty form is rejected for its blank name |
| CustomPrompts.DeleteKeepsPrompt | src/components/settings/CustomPrompts.tsx:51-66 | deleting a prompt keeps it in the list, unbound, in place of the old record |
| CustomPrompts.PromptForm.constructor | src/components/settings/CustomPrompts.tsx:27-31 | the form starts empty and not editing |
| CustomPrompts.PromptForm.HandleSavePrompt | src/components/settings/CustomPrompts.tsx:76-97 | an invalid form only sets the error; otherwise the prompt is registered, and on success the form is reset and the list reloaded |
| CustomPrompts.PromptForm.Submit | src/components/settings/CustomPrompts.tsx:83-96 | the part after validation: register, then reset and reload on success |
| CustomPrompts.PromptForm.HandleDeletePrompt | src/components/settings/CustomPrompts.tsx:51-66 | the prompt is registered again with an empty shortcut; the form itself is untouched |
| CustomPrompts.PromptForm.HandleEditPrompt | src/components/settings/CustomPrompts.tsx:45-49 | editing loads the entry and keeps the error |
| CustomPrompts.PromptForm.HandleCancelEdit | src/components/settings/CustomPrompts.tsx:99-104 | cancelling resets the form, the editing flags and the error |
| CustomPrompts.PromptForm.OnShortcutChange | src/components/settings/CustomPrompts.tsx:181-185 | only the form's shortcut changes |
| CustomPrompts.PromptForm.SaveShortcutField | src/components/settings/CustomPrompts.tsx:301-312 | an accepted capture stores the sorted keys in wire form; a rejected one changes nothing |
| CustomPrompts.UnboundShowsNothing | src/components/settings/CustomPrompts.tsx:301 | an unbound prompt shows no keys |
| CustomPrompts.AcceptedShortcutShownAgain | src/components/settings/CustomPrompts.tsx:301-312 | canonical keys saved by the field are shown again as the same sorted keys |
| SelectedTextPanel.Excerpt | src/components/SelectedTextPanel.tsx:13-16 | text longer than 200 characters shows its first 150 characters, trimmed, followed by `...`, which is shorter than the text; any other text is shown as it is |
| SelectedTextPanel.ExcerptIsTrimmedPrefix | src/components/SelectedTextPanel.tsx:13-16 | the excerpt is the slice between the first and the last non-whitespace character of the first 150 |
| SelectedTextPanel.ExcerptKeepsUntrimmedPrefix | src/components/SelectedTextPanel.tsx:13-16 | when the first 150 characters start and end with non-whitespace, the excerpt is all of them followed by `...` |
| SelectedTextPanel.ToggleMattersOnlyForLongText | src/components/SelectedTextPanel.tsx:13-36 | expanding changes what is shown iff the text is long |
| SelectedTextPanel.WordCount | src/components/SelectedTextPanel.tsx:17-19 | the non-empty pieces of the split on whitespace runs; `SelectedTextPanel.WordCountIsWordStarts` states what it counts |
| SelectedTextPanel.CharCount | src/components/SelectedTextPanel.tsx:20 | the length of the text, 0 without text; `SelectedTextPanel.WordCountAtMostCharCount` relates it to the word count |
| SelectedTextPanel.WordCountZeroIff | src/components/SelectedTextPanel.tsx:17-19 | the word count is 0 iff there is no text or it is all whitespace |
| SelectedTextPanel.WordCountAtMostCharCount | src/components/SelectedTextPanel.tsx:17-20 | there are never more words than characters |
| SelectedTextPanel.NonEmptyPiecesAreWordStarts | src/components/SelectedTextPanel.tsx:18 | the split on whitespace runs has one non-empty piece per word start: a first non-whitespace character, or one right after whitespace |
| SelectedTextPanel.WordCountIsWordStarts | src/components/SelectedTextPanel.tsx:17-19 | the word count is the number of word starts |
| Strings.TrimStartSpec | src/components/SelectedTextPanel.tsx:15 | `trimStart` drops exactly the leading whitespace: what it gives is a suffix that does not start with whitespace |
| Strings.TrimEndSpec | src/components/SelectedTextPanel.tsx:15 | `trimEnd` drops exactly the trailing whitespace: what it gives is a prefix that does not end with whitespace |
| Strings.TrimSpec | src/components/SelectedTextPanel.tsx:15 | `trim` gives a contiguous part of the string that neither starts nor ends with whitespace |
| Strings.TrimEmptyIff | src/components/SelectedTextPanel.tsx:15 | trimming gives `""` iff every character is whitespace |
| Strings.TrimIsUnique | src/components/SelectedTextPanel.tsx:15 | a slice with only whitespace around it and none at its two ends is what `trim` gives |
| Strings.JoinSplit | src/utils/keyboardUtils.ts:125 | joining the pieces of a split gives the string back |
| Strings.SplitJoin | src/utils/keyboardUtils.ts:143-160 | splitting a join of `+`-free pieces gives the pieces back |
| Strings.SplitOnSpaceRunsPieces | src/components/SelectedTextPanel.tsx:18 | splitting on whitespace runs gives pieces with no whitespace |
| Strings.ReplaceAllAtFirst | src-tauri/src/query.rs:167 | `replace` copies the text before the first occurrence, puts the replacement for it, and goes on after it |
| Strings.ReplaceAllParts | src-tauri/src/query.rs:167 | pieces that create no occurrence, joined by the pattern, come out joined by the replacement |

## Left out

- Rendering, styling and navigation (JSX components and their props) are not
  part of this model.
- Event plumbing (`useHotkeys`, `window.addEventListener`) is left out. Each
  handler is a method that takes the event's code and flags.
- Effects outside the model are represented by their outcomes or by
  parameters:
  - `invoke`, `emit`, file writes, the global-shortcut plugin and the LLM
    builder are each an `Outcome` parameter;
  - a single `write` outcome stands for every write in one handler (the delete
    loop of `LLMConfigurations.tsx` gives each call the same write outcome and
    its own build outcome);
  - `Shortcut::parse` is a function parameter;
  - the LLM chat call is a function parameter.
- `commands.rs` is not part of this model: windows, clipboard, simulated
  keystrokes, sleeping. The `toggle_window` and `get_cursor_position` calls
  that could panic on `unwrap` are represented only by their effect.
- Serde JSON, lock poisoning and other lock errors are left out, and so is the
  I/O failure of `SettingsManager::new`. The stored settings are a parameter of
  its constructor.
- `last_response` and `set_latest_output` are not fields of the shown
  `AppState`. Where the code reads the last response, it is a parameter. Storing
  the response after a prompt is not modelled.
- EnabledShortcuts: the `expect` panic of `enable_shortcuts` on an unparsable
  stored string is modelled as an error result. The process stopping is not
  modelled.
- UpdateShortcut: the `expect` panic on an unparsable stored string is
  modelled as the error "Stored shortcut should be valid" with nothing
  changed. The process stopping is not modelled.
- UpdateShortcut and HandlePromptCommand: the windows that may be missing are
  represented by their emit outcomes. A missing window is treated as an emit
  that passed.
- The plugin's handler list leaves out the start-up handler that
  `enable_shortcuts` installs with `with_handler`, together with its snapshot
  of the shortcuts. `update_shortcut` never replaces that snapshot, so a
  re-bound hotkey that was registered at start-up may also run its old
  command. The plugin's own dispatch is not part of this model.
- The plugin's hotkey identity is the shortcut string. Two strings that parse
  to the same hotkey are not identified with each other.
- Case mapping is ASCII only. JavaScript's full Unicode `toLowerCase` and
  `toUpperCase` are not modelled. Lengths count characters, not UTF-16 code
  units.
- Temperature is a `real` compared against 0 and 2, and `max_tokens` is a
  `nat`. The `f32`, `u32` and `Number(value)` conversions are left out.
- The listener's effect also re-runs when the parent hands a new
  `executeCustomPrompt` function (a new identity on each of its renders),
  clearing the held keys. When the parent re-renders is outside the model;
  `ShortcutListener.Listener.Attach` is the re-attach it causes, and a caller
  must invoke it.
- The pages' `onUpdate` reload is modelled as reading back the manager's
  in-memory settings. A failed reload is not modelled.
- Errors that are not strings are not modelled: `"Failed to save
  configuration"`, `"Failed to delete configuration"`, `"Failed to save
  prompt"`, `"Failed to delete prompt"`. Every backend error is a string.
- The `loading` flags, the notification timers (`useStatusNotification.ts`)
  and platform detection are left out. `isMac` is a parameter of `FormatKey`.
- The listener's `preventDefault` on a match is not modelled. The second
  (single-key) search is written out but its result is, as proved, the first
  search's.

## Observations

These follow from the code as written. The model keeps the behaviour as it is.

- **The single-key fallback of the listener never changes the outcome.** With
  one key held, the single-key string is the full comparison string
  (`ShortcutListener.SingleKeyLookupRepeatsFirst`). So the second search finds
  what the first one already missed. `ShortcutListener.Listener.KeyDown` runs
  both searches and its contract states the result of the first alone
  (`src/hooks/useShortcutListener.ts:73-93`).
- **`ArrowUp` is stored as `arrowup` and decodes to `Arrowup`**, and that key
  then shows as the word rather than the arrow
  (`KeyboardUtils.ArrowUpDecodesToArrowup`, `KeyboardUtils.ArrowUpDisplay`;
  `src/utils/keyboardUtils.ts:137`). The same holds for every named key whose
  name has an inner capital letter.
- **`command` and `control` spelled out come back as `cmd` and `ctrl`**
  (`KeyboardUtils.WireRoundTripFailsForLongModifierName`). Decode then encode
  is the lower-cased string only when no token spells out those two names.
- **Deleting an LLM configuration cannot remove it.** The page registers the
  other configs again, but the backend only replaces and appends by name, so
  the deleted name stays (`LlmConfigurations.DeleteCannotRemove`;
  `src/components/settings/LLMConfigurations.tsx:91-96` against
  `src-tauri/src/settings.rs:174-175`).
- **Deleting a custom prompt keeps it.** It is registered again with an empty
  shortcut (`CustomPrompts.DeleteKeepsPrompt`). A prompt whose shortcut was
  cleared is then matched by a key event whose code is empty, since that
  normalises to the empty string
  (`ShortcutListener.ClearedPromptRunsOnEmptyCode`).
- **The main page's edit index goes stale after a delete below it.** The
  edited entry then sits one place lower, where the uniqueness check no
  longer exempts it. Usually this shows as a spurious error: saving the entry
  under its own name gives "Configuration name must be unique"
  (`App.StaleSameNameRejected`; `src/App.tsx:55-58`). When the edit gives the
  entry a name no other entry holds, the save passes. It then overwrites the
  entry after the edited one, or, at the end of the list, leaves the local
  list unchanged while the backend still registers the config and the form
  is reset (`App.SaveAfterDeleteBelowOverwritesNext`,
  `App.SaveAtStaleLastIndexDropsEdit`; `src/App.tsx:68-113`).
- **The editor's held set is never cleared by starting, cancelling or
  saving.** A key released while no session is open stays held and shows up
  in the next candidate (`ShortcutEditor.StaleHeldKeySession`).
- **`PrintHello` has no arm in `handle_shortcut_commands`.** That function
  matches `PasteOutput`, which the shown `CommandType` does not declare, and it
  does not match `PrintHello`, which the enum declares. The model has both
  variants and gives `PrintHello` no effect.
- **The placeholder is replaced in one pass.** Every `{{selectedText}}` of
  the template is replaced (`Query.EveryPlaceholderReplaced`), but the
  result may still hold one: a selection can complete a placeholder with the
  template text around it (`Query.SelectionCanCompletePlaceholder`). With no
  `{` in the template parts or the selection, none is left
  (`Query.NoPlaceholderLeft`; `src-tauri/src/query.rs:167`).
- **A stored shortcut that fails to parse stops `update_shortcut`.** Its
  `expect` panics, so no later step runs; the model returns an error at that
  step with nothing changed.

Where the descriptive documentation and the code differ, the model follows
the code:

- Meta is a modifier: `isModifierKey` lists five names.
- Decoding does not restore the capitals of named keys.
- The editor's held set is not cleared on start, cancel or commit.
