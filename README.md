# Stash plugins: element watcher, colour-coded tags, studio logos and theme switcher

This project is a Dafny model of the decision logic in six browser plugins for the Stash media organiser. It also proves properties of that logic. The browser is replaced by abstract state: node lists with marker attributes, class sets, a string-keyed configuration map and checkbox lists. Every mutation batch, timer firing and user event is an explicit call.

- **Element-readiness watcher** (`ElementReady`), from `onElementReady.js`:
  - `toAttributeName`, the marker for each watch;
  - the dedupe-by-marker scan `queryForElements`, as a method on a `Document` class whose node marks change in place;
  - the `onElementReady` state machine (initial pass, one rescan per mutation batch, resolved and connected flags), as a `Watch` class and as a pure `Run` over a sequence of batches.
- **Tag parsing** (`TagParser`) and **colour-coded tags** (`ColorCodedTags`):
  - `parseTag`, whose regular expression is stated as a relation `IsMatch` together with the backtracking preference order `Prefers`; a checked matcher `FindMatch` computes the preferred leftmost match;
  - the category table;
  - `parseSettings`;
  - `renameTag` and `colorCodeTag`, as element records changed in place;
  - the unmatched-tag list of `mapTagsForDraft`.
- **Studio logo enhancer** (`StudioLogo`):
  - the 32-bit wrapping name hash and the memoising `colorForStudio`;
  - initials, the 8-character word-wrap loop, its 3-line cap and the font-size table of `createPlaceholder`;
  - `normalizeStudioName`;
  - the class-set updates of `classifyLogo` and `applyStudioOverride`;
  - adding and removing per-studio overrides.
- **Theme switcher, shared parts** (`SwitcherKeys`, `SwitcherJson`): `getKey` as both versions write it, and the `JSON.stringify`/`JSON.parse` round trip of a list of scope names.
- **Theme switcher, development core** (`SwitcherCore`), from `Switcher-dev/Switcher-core.js`:
  - the `StorageManager` map with its single pending-save timer;
  - the `StateManager` listener registry and change-only notifying setters, with the theme-scoped variable accessors;
  - the state effects of `ThemeManager.apply` and `applyNoTheme`;
  - `normalizeSnippet`;
  - the snippet flag and scope accessors, and `disableAll`.
- **Theme switcher, single-file version** (`Switcher`, `SnippetScopes`), from `Switcher/Switcher.js`:
  - the guarded theme-variable accessors;
  - the three-level priority of `resolveValue`;
  - the snippet enabled and scopes round trip;
  - scheme selection;
  - the CSS scope-rewriting loop of `SnippetManager.apply`;
  - the key decomposition of `setupStorageSync`.
- **Switcher UI rules** (`SwitcherUI`), from `Switcher-dev/Switcher-UI.js`:
  - the section toggle;
  - display-name title-casing;
  - the theme and scheme option list;
  - the two handlers that map checkboxes to an enabled flag and a scope list;
  - unit stripping and appending for variable inputs;
  - active highlighting.

JavaScript strings are `seq<char>`, one UTF-16 code unit per character. `null`, `undefined` and strings are told apart where the source tells them apart (`SwitcherKeys.JsStr`). Integers are unbounded; the one place where the source relies on 32-bit arithmetic is written out (`StudioLogo.ToInt32`).

Where a comment and the code disagree, the model follows the code:
  - `ColorCodedTags.js:243` says a tag with category `p` maps to its override. `p` is not a key of the category table, so such a tag parses to nothing (`TagParser.UnknownCategoryExample`).
  - `Switcher.js:345` says only selectors that start with the card type are processed. The pattern at `Switcher.js:351` has no boundary after the card class, so a selector of a longer class such as `.a-card-x` is processed too. The CSS rewrite is modelled for the pattern as written (`SnippetScopes.AsWritten`) and for the corrected one (`SnippetScopes.Corrected`); see "## Findings".
  - `onElementReady.js:43` says the find-once mode stops querying after the first successful pass. The initial pass never stops the observer, and a later scan detaches it only after the whole scan (`ElementReady.FindOnceQuirks`).

## Model

| member | source | states |
|---|---|---|
| ElementReady.AttributeNameChars | plugins/ColorCodedTags/onElementReady.js:9-16 | every character of a derived attribute name is a lower-case ASCII letter or `-`, so it holds no space |
| ElementReady.AttributeNameIdempotent | plugins/ColorCodedTags/onElementReady.js:9-16 | deriving the name of a derived name gives it back unchanged |
| ElementReady.AttributeNameExample | plugins/ColorCodedTags/onElementReady.js:9-16 | `My Plugin!!` derives to `my-plugin` |
| ElementReady.AttributeNameEmpty | plugins/ColorCodedTags/onElementReady.js:10-15 | the empty key derives to the empty name, not to a fallback |
| ElementReady.NonEmptyParts | plugins/ColorCodedTags/onElementReady.js:14 | every kept piece is non-empty and is one of the split's pieces |
| ElementReady.Marker | plugins/ColorCodedTags/onElementReady.js:27-57 | no key gives the default marker `was-queried` (the default parameter replaces `undefined`); a given key gives its derived name, even when that is empty |
| ElementReady.PassEffect | plugins/ColorCodedTags/onElementReady.js:27-34 | after a scan every match carries the marker, other nodes and other attributes are unchanged, the delivered nodes are exactly the matches that were unmarked before, and none is delivered twice |
| ElementReady.PassOrder | plugins/ColorCodedTags/onElementReady.js:29-33 | a scan delivers the unmarked matches in query order |
| ElementReady.PassIndependent | plugins/ColorCodedTags/onElementReady.js:29-31 | a scan under one marker does not change what a scan under a different marker delivers |
| ElementReady.PassSameFor | plugins/ColorCodedTags/onElementReady.js:29-31 | what a scan delivers depends only on which nodes carry its own marker |
| ElementReady.RescanDeliversOnlyNew | plugins/ColorCodedTags/onElementReady.js:29-32 | a rescan under the same marker never delivers a node the earlier scan delivered |
| ElementReady.Document.QueryForElements | plugins/ColorCodedTags/onElementReady.js:27-34 | the loop over the matches leaves the document marks and returns the delivered list that the scan specification gives |
| ElementReady.FirstAccepted | plugins/ColorCodedTags/onElementReady.js:53-56 | a pass resolves only in find-once mode, with a delivered node the callback accepted; otherwise no delivered node was accepted |
| ElementReady.StartDeliveredOnce | plugins/ColorCodedTags/onElementReady.js:53-57 | after the initial pass every delivered node carries the marker and was called back exactly once |
| ElementReady.StepDeliveredOnce | plugins/ColorCodedTags/onElementReady.js:60-68 | a mutation pass keeps every node called back at most once and marked |
| ElementReady.RunDeliveredOnce | plugins/ColorCodedTags/onElementReady.js:48-77 | over any sequence of mutation batches, every node is called back at most once per marker |
| ElementReady.RunNeverResolves | plugins/ColorCodedTags/onElementReady.js:48-56 | without find-once, or with a callback that accepts nothing (such as the default no-op), the promise never resolves |
| ElementReady.RunStaysConnected | plugins/ColorCodedTags/onElementReady.js:60-68 | without find-once the observer stays connected whatever the batches |
| ElementReady.RunResolvesOnce | plugins/ColorCodedTags/onElementReady.js:63-67 | once resolved, the resolution never changes |
| ElementReady.RunDetached | plugins/ColorCodedTags/onElementReady.js:66 | a disconnected observer makes no more calls and changes nothing |
| ElementReady.FindOnceQuirks | plugins/ColorCodedTags/onElementReady.js:53-67 | in find-once mode an accepting initial pass resolves but leaves the observer connected; a mutation pass disconnects exactly when it accepts a node; later nodes of an accepting pass are still marked and called back |
| ElementReady.Watch.constructor | plugins/ColorCodedTags/onElementReady.js:48-57 | a new watch has run the initial pass over the document with its marker |
| ElementReady.Watch.OnMutations | plugins/ColorCodedTags/onElementReady.js:60-68 | one mutation batch moves the watch to the state the step specification gives |
| ElementReady.Watch.DeliverBatch | plugins/ColorCodedTags/onElementReady.js:63-68 | every delivered node reaches the callback; with `findOnce` the first accepted node resolves an unresolved promise, and the observer stays attached exactly when no node was accepted |
| TagParser.MatchAtSound | plugins/ColorCodedTags/ColorCodedTags.js:233 | a match the matcher finds at a position satisfies the pattern relation there |
| TagParser.MatchAtComplete | plugins/ColorCodedTags/ColorCodedTags.js:233 | when the pattern matches at a position, the matcher finds a match there that backtracking tries no later than any other |
| TagParser.FindMatchCorrect | plugins/ColorCodedTags/ColorCodedTags.js:233 | the search returns the leftmost match, preferred among matches at that start; no result means no match anywhere |
| TagParser.HiddenCategories | plugins/ColorCodedTags/ColorCodedTags.js:31-126 | exactly the categories `h` and `u` are hidden; every other category has a text and a background colour |
| TagParser.ParseTag | plugins/ColorCodedTags/ColorCodedTags.js:231-237 | a parsed category is a key of the colour table, and the parsed name is non-empty and holds no `[` |
| TagParser.FindMatchSound | plugins/ColorCodedTags/ColorCodedTags.js:233 | a match the search returns satisfies the pattern and starts no earlier than the search |
| TagParser.ParseTagGroups | plugins/ColorCodedTags/ColorCodedTags.js:231-237 | the fields are the match's groups; a category outside the table gives the empty result; `stashDbName` is the non-empty bracketed override when present, else the name |
| TagParser.NoDotNoTag | plugins/ColorCodedTags/ColorCodedTags.js:233-234 | a subject without `.` never parses |
| TagParser.ParseTagExample | plugins/ColorCodedTags/ColorCodedTags.js:242 | `a1. Anal` parses to category `a` and name `Anal` |
| TagParser.ParseTagOverrideExample | plugins/ColorCodedTags/ColorCodedTags.js:233-236 | `b2. Xy [Z]` gives the override `Z`, and the name keeps the space before the bracket |
| TagParser.OneCharCategory | plugins/ColorCodedTags/ColorCodedTags.js:233-234 | a subject whose only `.` is its third character has a one-character category, so it parses to nothing when that character is not a key of the table |
| TagParser.UnknownCategoryExample | plugins/ColorCodedTags/ColorCodedTags.js:243 | the commented example `p3. Brunette [Brown Hair (Female)]` parses to nothing |
| ColorCodedTags.CopyKnownSpec | plugins/ColorCodedTags/ColorCodedTags.js:13-22 | at each step of the reduce the accumulator holds at most `showCategoryCode`, with the settings' value |
| ColorCodedTags.ParseSettingsSpec | plugins/ColorCodedTags/ColorCodedTags.js:12-23 | the result's only possible key is `showCategoryCode`; it is present exactly when the settings have it and holds their value unchanged |
| ColorCodedTags.ShowCodesOfSettings | plugins/ColorCodedTags/ColorCodedTags.js:10-23 | codes stay shown exactly when the user settings object has a `showCategoryCode` key with a truthy value; the `""` fallback never shows them |
| ColorCodedTags.TagLabel.Rename | plugins/ColorCodedTags/ColorCodedTags.js:138-144 | an unparsable label is left alone; otherwise the title becomes the old text, and the text becomes the real tag name unless codes are shown |
| ColorCodedTags.TagChip.ColorCode | plugins/ColorCodedTags/ColorCodedTags.js:148-165 | an unparsable chip is left alone; otherwise a hidden category removes the chip unless its row indicates a hierarchy, the text is renamed as in `renameTag`, and the category's colours are applied |
| ColorCodedTags.HiddenRule | plugins/ColorCodedTags/ColorCodedTags.js:152-154 | a parsed chip is removed exactly when its category is `h` or `u` and its row shows no hierarchy |
| ColorCodedTags.ParentTagsRow | plugins/ColorCodedTags/ColorCodedTags.js:153 | the row text `parent tags` indicates a hierarchy |
| ColorCodedTags.DisplayText | plugins/ColorCodedTags/ColorCodedTags.js:282 | the shown text is the `, ` join of the unmatched tags when that join is non-empty, and the all-matched message when it is empty |
| ColorCodedTags.JoinEmpty | plugins/ColorCodedTags/ColorCodedTags.js:282 | a join with a non-empty separator is falsy exactly for no tags or a single empty tag |
| ColorCodedTags.DisplayTextMessage | plugins/ColorCodedTags/ColorCodedTags.js:282 | the all-matched message shows exactly when no tag is left, the only tag left is empty, or the join reads as the message itself |
| ColorCodedTags.DisplayTextEmptyName | plugins/ColorCodedTags/ColorCodedTags.js:282 | a list holding only the empty tag shows the all-matched message, since its join is falsy |
| ColorCodedTags.StashDbNames | plugins/ColorCodedTags/ColorCodedTags.js:253-256 | every kept name is the StashDB name of a piece that parses, and no more names than pieces are kept |
| ColorCodedTags.StashDbNamesAppend | plugins/ColorCodedTags/ColorCodedTags.js:253-256 | the `map`/`filter` works piece by piece and keeps order: the names of a concatenation are the concatenated names |
| ColorCodedTags.StashDbNamesOne | plugins/ColorCodedTags/ColorCodedTags.js:255-256 | one piece contributes its StashDB name when it parses (the name is never undefined then), and nothing when it does not |
| ColorCodedTags.DraftTags.constructor | plugins/ColorCodedTags/ColorCodedTags.js:259-260 | the unmatched list starts as all StashDB names, shown joined |
| ColorCodedTags.DraftTags.OnOption | plugins/ColorCodedTags/ColorCodedTags.js:274-283 | an option is accepted exactly when it equals the tag ignoring case; then every copy of the tag leaves the list and the shown text is refreshed, otherwise nothing changes |
| ColorCodedTags.MatchedRemovesTag | plugins/ColorCodedTags/ColorCodedTags.js:281 | after the filter the tag is gone, every other tag keeps its count, and the rest keep their order |
| StudioLogo.ToInt32 | plugins/StudioLogoEnhancer/StudioLogoEnhancer.js:98 | `x \| 0` is the signed 32-bit value congruent to `x` modulo 2^32, and leaves values already in range alone |
| StudioLogo.ToInt32Congruent | plugins/StudioLogoEnhancer/StudioLogoEnhancer.js:98 | adding a multiple of 2^32 does not change the wrapped value |
| StudioLogo.HashWrapsOnce | plugins/StudioLogoEnhancer/StudioLogoEnhancer.js:96-99 | wrapping after every step equals wrapping the unbounded polynomial hash once, and the result is a signed 32-bit value |
| StudioLogo.ComputeHash | plugins/StudioLogoEnhancer/StudioLogoEnhancer.js:96-99 | the loop computes the hash of the name, a signed 32-bit value |
| StudioLogo.Hue | plugins/StudioLogoEnhancer/StudioLogoEnhancer.js:102 | the hue is in [0, 359] |
| StudioLogo.StudioColors.ColorForStudio | plugins/StudioLogoEnhancer/StudioLogoEnhancer.js:84-108 | without persistent colours the given random colour is returned and the cache is unchanged; with them, the name's hash colour is returned and stored under the name |
| StudioLogo.FirstCharsNonEmpty | plugins/StudioLogoEnhancer/StudioLogoEnhancer.js:116-119 | for non-empty words, there is one first character per word, in order |
| StudioLogo.Initials | plugins/StudioLogoEnhancer/StudioLogoEnhancer.js:116-121 | the initials are at most two characters, none of them lower-case |
| StudioLogo.InitialsOfWords | plugins/StudioLogoEnhancer/StudioLogoEnhancer.js:116-121 | the initials are the upper-cased first characters of the first two whitespace-separated words, in order |
| StudioLogo.WrapLines | plugins/StudioLogoEnhancer/StudioLogoEnhancer.js:139-158 | the wrap loop and the cap compute the capped lines of the word list |
| StudioLogo.WrapKeepsWords | plugins/StudioLogoEnhancer/StudioLogoEnhancer.js:144-152 | the loop's finished lines and current line, joined with spaces, give the words in order; no finished line is empty |
| StudioLogo.WrapStepKeeps | plugins/StudioLogoEnhancer/StudioLogoEnhancer.js:144-152 | one iteration appends the word, after a space, to the joined lines and keeps every line non-empty |
| StudioLogo.FlushKeepsWords | plugins/StudioLogoEnhancer/StudioLogoEnhancer.js:144-153 | the wrapped lines, joined with spaces, reproduce the words in order, and none is empty |
| StudioLogo.WrapLinesShort | plugins/StudioLogoEnhancer/StudioLogoEnhancer.js:144-152 | any line holding two or more words is at most 8 characters long |
| StudioLogo.CapLinesSpec | plugins/StudioLogoEnhancer/StudioLogoEnhancer.js:155-158 | the cap leaves at most 3 lines, keeps the first two, joins the rest into the third, and loses no words |
| StudioLogo.MaxLen | plugins/StudioLogoEnhancer/StudioLogoEnhancer.js:161 | the longest line's length bounds every line and is reached by one; there is none for no lines |
| StudioLogo.FontSize | plugins/StudioLogoEnhancer/StudioLogoEnhancer.js:161-166 | the size is 5, 7 or 10, chosen only by the longest line's length: 10 up to 6 characters, 5 from 13 to 16, else 7 |
| StudioLogo.PlaceholderLayout | plugins/StudioLogoEnhancer/StudioLogoEnhancer.js:110-166 | the placeholder has at most 3 lines that keep its words in order; a name of white space only trims to the empty text and gives no lines and size 10 (an empty or missing name is first replaced by `Unknown`) |
| StudioLogo.NormalizedShape | plugins/StudioLogoEnhancer/StudioLogoEnhancer.js:192-198 | the normalised name holds only lower-case letters, digits and single inner spaces |
| StudioLogo.TrimmedShape | plugins/StudioLogoEnhancer/StudioLogoEnhancer.js:196-197 | trimming a collapsed name keeps its characters and removes the outer spaces |
| StudioLogo.NormalizeDropsLogo | plugins/StudioLogoEnhancer/StudioLogoEnhancer.js:195 | one trailing `logo`, in any case, does not change the normalised name |
| StudioLogo.NormalizeAbsent | plugins/StudioLogoEnhancer/StudioLogoEnhancer.js:193 | a missing or empty name normalises to the empty string |
| StudioLogo.Dim | plugins/StudioLogoEnhancer/StudioLogoEnhancer.js:224-225 | a zero natural size is replaced, so a dimension is always positive |
| StudioLogo.ThresholdsAreRatios | plugins/StudioLogoEnhancer/StudioLogoEnhancer.js:236-249 | the integer cross-multiplications decide exactly the source's ratio comparisons with 1.1 and 0.75 |
| StudioLogo.ShapeSpec | plugins/StudioLogoEnhancer/StudioLogoEnhancer.js:229-249 | a classified logo has exactly one of wide, tall and square, the one the aspect ratio picks; of skinny and fat it has exactly the one the fill picks, or neither; every class outside the five is kept |
| StudioLogo.FillThresholdsAreRatios | plugins/StudioLogoEnhancer/StudioLogoEnhancer.js:227-249 | with fill the smaller dimension over the larger as an exact ratio, below 0.28 is skinny, above 0.4 fat, and otherwise neither |
| StudioLogo.ShapeUnknownSize | plugins/StudioLogoEnhancer/StudioLogoEnhancer.js:224-249 | a logo of unknown size is square and fat |
| StudioLogo.OverrideSpec | plugins/StudioLogoEnhancer/StudioLogoEnhancer.js:200-219 | no override, or an empty key, leaves the classes alone; otherwise forced classes are present, removed classes that are not forced are absent, and all other classes are unchanged |
| StudioLogo.LogoImage.ApplyStudioOverride | plugins/StudioLogoEnhancer/StudioLogoEnhancer.js:200-220 | the image's classes become the override result for its studio key |
| StudioLogo.LogoImage.Classify | plugins/StudioLogoEnhancer/StudioLogoEnhancer.js:222-253 | the classes become the shape classification followed by the studio override |
| StudioLogo.StudioConfig.constructor | plugins/StudioLogoEnhancer/StudioLogoEnhancer.js:8-25 | the configuration starts with the default overrides |
| StudioLogo.StudioConfig.AddStudioOverride | plugins/StudioLogoEnhancer/StudioLogoEnhancer.js:554-563 | the override is stored under the normalised studio name, and nothing else changes |
| StudioLogo.StudioConfig.RemoveStudioOverride | plugins/StudioLogoEnhancer/StudioLogoEnhancer.js:570-579 | the override under the normalised name is dropped, and nothing else changes |
| StudioLogo.AddRemoveOverride | plugins/StudioLogoEnhancer/StudioLogoEnhancer.js:554-579 | after adding, the studio's logos get exactly the new override; after removing, they are left alone |
| SwitcherKeys.GetKey | plugins/Switcher/Switcher.js:53-63 | the key is empty exactly for a type outside the six known ones |
| SwitcherKeys.ScopedKeyFormat | plugins/Switcher/Switcher.js:55-58 | a scoped key is its kind's prefix for the theme and scheme, followed by the name (and, for a snippet variable, `-` and the variable) |
| SwitcherKeys.ScopedKeyInjective | plugins/Switcher/Switcher.js:55-57 | under one theme and scheme, two different names never share a key |
| SwitcherKeys.KindsDisjoint | plugins/Switcher/Switcher.js:55-60 | keys of two different types never coincide |
| SwitcherKeys.KeyKind | plugins/Switcher/Switcher.js:55-60 | a scoped key starts with its type's prefix, and is at least two characters longer |
| SwitcherKeys.DashedNamesShareKeys | plugins/Switcher/Switcher.js:55 | theme `a-b` with scheme `c` and theme `a` with scheme `b-c` share their variable keys |
| SwitcherJson.ParseStringify | plugins/Switcher/Switcher.js:392-405 | parsing a stringified list of scope names gives the list back |
| SwitcherJson.StringifyNonEmpty | plugins/Switcher/Switcher.js:392 | a stringified list is never empty, so a stored scope list is always truthy |
| SwitcherCore.AtMostOneArmed | plugins/Switcher-dev/Switcher-core.js:86-100 | in a consistent timer state at most one save timer is armed, and it is the pending one |
| SwitcherCore.TimersPreserved | plugins/Switcher-dev/Switcher-core.js:86-117 | scheduling, firing, completing (as corrected) and forcing a save keep the timer state consistent |
| SwitcherCore.TwoTimersAsWritten | plugins/Switcher-dev/Switcher-core.js:86-100 | with the completion as written, set, fire, set, settle, set leaves two timers armed |
| SwitcherCore.StorageManager.constructor | plugins/Switcher-dev/Switcher-core.js:40-60 | the store starts with the loaded configuration and no timers |
| SwitcherCore.StorageManager.Get | plugins/Switcher-dev/Switcher-core.js:62-64 | a value is returned exactly when the key is stored with a truthy value, and it is that value |
| SwitcherCore.StorageManager.ScheduleSave | plugins/Switcher-dev/Switcher-core.js:86-100 | the pending timer is cleared and a new one armed |
| SwitcherCore.StorageManager.Set | plugins/Switcher-dev/Switcher-core.js:66-69 | the key is updated and every other key kept, a non-empty value reads back, and a save is scheduled |
| SwitcherCore.StorageManager.Remove | plugins/Switcher-dev/Switcher-core.js:71-74 | the key is deleted and every other key kept, it reads as null, and a save is scheduled |
| SwitcherCore.StorageManager.BatchSet | plugins/Switcher-dev/Switcher-core.js:76-79 | every update is merged over the configuration, and one save is scheduled |
| SwitcherCore.StorageManager.BatchRemove | plugins/Switcher-dev/Switcher-core.js:81-84 | exactly the listed keys are deleted, and one save is scheduled |
| SwitcherCore.StorageManager.FireSave | plugins/Switcher-dev/Switcher-core.js:91-93 | a firing timer stops being armed and its save is in flight |
| SwitcherCore.StorageManager.SaveSettled | plugins/Switcher-dev/Switcher-core.js:94-98 | a settled save clears the pending handle only when it is still the one that fired (corrected) |
| SwitcherCore.StorageManager.ForceSave | plugins/Switcher-dev/Switcher-core.js:103-117 | any pending timer is cleared and the configuration is unchanged |
| SwitcherCore.StorageManager.KeysMatching | plugins/Switcher-dev/Switcher-core.js:119-121 | the result is exactly the stored keys containing the pattern |
| SwitcherCore.CallsForSpec | plugins/Switcher-dev/Switcher-core.js:153-163 | a notification calls every listener of the key once, in subscription order, with the key and value |
| SwitcherCore.FindTheme | plugins/Switcher-dev/Switcher-core.js:240-242 | a found theme is listed with that name; no result means no listed theme has it |
| SwitcherCore.FindThemeFirst | plugins/Switcher-dev/Switcher-core.js:240-242 | the first listed theme with the name is the one found |
| SwitcherCore.StateManager.constructor | plugins/Switcher-dev/Switcher-core.js:131-144 | the state starts with no themes, snippets, listeners, theme or scheme |
| SwitcherCore.StateManager.Subscribe | plugins/Switcher-dev/Switcher-core.js:146-151 | the listener is appended to its key's list, and other keys' lists are unchanged |
| SwitcherCore.StateManager.Notify | plugins/Switcher-dev/Switcher-core.js:153-163 | every listener of the key is called in order, and a throwing listener is recorded without stopping the rest |
| SwitcherCore.StateManager.SetCurrentTheme | plugins/Switcher-dev/Switcher-core.js:165-173 | the theme is set, and listeners are notified only when it changed |
| SwitcherCore.StateManager.SetCurrentScheme | plugins/Switcher-dev/Switcher-core.js:175-183 | the scheme is set, and listeners are notified only when it changed |
| SwitcherCore.StateManager.GetThemeVar | plugins/Switcher-dev/Switcher-core.js:220-223 | without both a theme and a scheme the value is null; otherwise it is the stored value under the variable's scoped key |
| SwitcherCore.StateManager.SetThemeVar | plugins/Switcher-dev/Switcher-core.js:225-228 | without a theme and a scheme nothing changes; otherwise the scoped key is set and reads back |
| SwitcherCore.StateManager.RemoveThemeVar | plugins/Switcher-dev/Switcher-core.js:230-233 | without a theme and a scheme nothing changes; otherwise the scoped key is deleted, and the variable reads as null either way |
| SwitcherCore.StateManager.AvailableSchemes | plugins/Switcher-dev/Switcher-core.js:235-238 | the schemes of the first listed theme named as the current theme, else none |
| SwitcherCore.StripCssSuffix | plugins/Switcher-dev/Switcher-core.js:746 | a trailing `.css` in any case is removed, and nothing else is |
| SwitcherCore.NormalizeSnippet | plugins/Switcher-dev/Switcher-core.js:743-771 | a non-object gives null; a string is named by its file; an object takes its name, else its file's stem, else `unnamed`, with the file defaulting to the name plus `.css`, and the variables and scopes defaulting |
| SwitcherCore.FileNameExample | plugins/Switcher-dev/Switcher-core.js:743-771 | the file name `Fade.CSS` gives a snippet named `Fade` with that file and the default scopes |
| SwitcherCore.UnnamedExample | plugins/Switcher-dev/Switcher-core.js:743-771 | an object with neither name nor file becomes `unnamed` with file `unnamed.css` |
| SwitcherCore.GetScopes | plugins/Switcher-dev/Switcher-core.js:714-723 | the stored scope list when it parses, else `["all"]` |
| SwitcherCore.SetEnabled | plugins/Switcher-dev/Switcher-core.js:725-729 | the flag is stored as `1` or `0` and reads back, and the scopes are unchanged; without a theme and a scheme nothing changes |
| SwitcherCore.SetScopes | plugins/Switcher-dev/Switcher-core.js:731-735 | the scope list is stored stringified and reads back, and the flag is unchanged; without a theme and a scheme nothing changes |
| SwitcherCore.SnippetKeysCover | plugins/Switcher-dev/Switcher-core.js:806-812 | the keys `disableAll` removes include every listed snippet's flag and scope keys |
| SwitcherCore.DisableAll | plugins/Switcher-dev/Switcher-core.js:798-827 | every listed snippet's flag and scope keys for the current theme and scheme are removed, and nothing else |
| SwitcherCore.RemoveSnippetKeys | plugins/Switcher-dev/Switcher-core.js:806-812 | one entry that normalises loses exactly its flag and scope keys; an entry that does not normalise changes nothing |
| SwitcherCore.SchemeFor | plugins/Switcher-dev/Switcher-core.js:532-534 | a listed requested scheme is kept; otherwise the first listed scheme, or none; a chosen scheme is always listed |
| SwitcherCore.ApplyNoTheme | plugins/Switcher-dev/Switcher-core.js:577-594 | the current snippets' keys are removed, the theme is stored as `no-theme`, the scheme key is dropped, theme and scheme become null, a save is pending, and the theme and scheme listeners are called exactly when their value changed |
| SwitcherCore.ApplyTheme | plugins/Switcher-dev/Switcher-core.js:521-551 | no theme or `no-theme` takes the no-theme path, with its storage result and listener calls; an unknown theme changes nothing and calls no listener; otherwise the theme and the chosen scheme are stored and become current, and the listeners of each are called when its value changed, the theme's first |
| SwitcherCore.StateManager.SetBoth | plugins/Switcher-dev/Switcher-core.js:543-548 | the theme and then the scheme are set; exactly the listeners of a changed value are called, in subscription order, and their throws reported |
| SnippetScopes.BodyClose | plugins/Switcher/Switcher.js:332 | a rule body's end is a `}` at or after the body's start |
| SnippetScopes.RuleAt | plugins/Switcher/Switcher.js:332 | a rule found at a position has a brace-free selector part, an opening `{` and a closing `}` |
| SnippetScopes.NextRule | plugins/Switcher/Switcher.js:332-338 | the next rule is the first position from which a rule matches; none means none anywhere later |
| SnippetScopes.RewriteVerbatim | plugins/Switcher/Switcher.js:338-372 | a rewrite that keeps every rule as written gives the text back, so text between and after rules is copied unchanged |
| SnippetScopes.RewriteStep | plugins/Switcher/Switcher.js:338-369 | one iteration appends the text before the rule and the rewritten rule, then continues after the rule |
| SnippetScopes.NoRulesUnchanged | plugins/Switcher/Switcher.js:338-372 | text without `{` is copied unchanged |
| SnippetScopes.LastCardIn | plugins/Switcher/Switcher.js:319 | the last `-card` occurrence within a range, or none |
| SnippetScopes.CardTypeAt | plugins/Switcher/Switcher.js:319 | a card class found at a position is `.` followed by a class name ending in `-card` |
| SnippetScopes.CardTypeSound | plugins/Switcher/Switcher.js:319-326 | a detected card type is a class name whose card class occurs in the selector |
| SnippetScopes.CardTypeComplete | plugins/Switcher/Switcher.js:319-320 | a selector containing any card class has a detected card type |
| SnippetScopes.ChainEnd | plugins/Switcher/Switcher.js:351 | the chained part after the card class is a run of non-space characters starting with `.` or `:` |
| SnippetScopes.MatchCardAsWritten | plugins/Switcher/Switcher.js:351 | the pattern as written: the selector starts with the card class and splits into that class, the chain, the gap and the descendants |
| SnippetScopes.MatchCardShape | plugins/Switcher/Switcher.js:351-354 | the chain has no space and starts with `.` or `:`, the gap is white space, and the descendants start with a non-space and hold no line break |
| SnippetScopes.MatchCard | plugins/Switcher/Switcher.js:351 | the corrected pattern: it matches as written exactly when the card class is not followed by another class character |
| SnippetScopes.CardBoundaryExample | plugins/Switcher/Switcher.js:351 | as written, `.a-card-x` counts as the card `.a-card` with descendant `-x`; corrected it does not |
| SnippetScopes.CardHoverExample | plugins/Switcher/Switcher.js:351-354 | corrected, `.a-card:hover .b` still matches with chain `:hover` and descendant `.b` |
| SnippetScopes.ForScopes | plugins/Switcher/Switcher.js:357-361 | one combined selector per scope selector, in order |
| SnippetScopes.TransformCount | plugins/Switcher/Switcher.js:346-362 | with either match, the rewritten rule has (kept selectors) × (scope selectors) selectors |
| SnippetScopes.TransformedFrom | plugins/Switcher/Switcher.js:346-362 | with either match, every rewritten selector combines one scope selector with one kept selector |
| SnippetScopes.TransformedCovers | plugins/Switcher/Switcher.js:346-362 | with either match, every pair of a kept selector and a scope selector appears in the rewritten rule |
| SnippetScopes.MatchersAgree | plugins/Switcher/Switcher.js:346-362 | the pattern as written and the corrected one rewrite a selector list alike when no selector continues the card class with another class character |
| SnippetScopes.RuleBoundaryExample | plugins/Switcher/Switcher.js:346-362 | as written, the selector `.a-card-x` under a scope for `.a-card` becomes `body -x`; corrected, it is dropped |
| SnippetScopes.SplitTrimmed | plugins/Switcher/Switcher.js:329 | the trimmed pieces of a comma split, one per piece |
| SnippetScopes.RuleText | plugins/Switcher/Switcher.js:364-366 | with either match, a rule with no kept selector is dropped; otherwise the rewritten selectors are joined with `,\n` before the unchanged body |
| SnippetScopes.UnmatchedRuleDropped | plugins/Switcher/Switcher.js:352-366 | with either match, a rule none of whose selectors starts with the card class is dropped |
| SnippetScopes.NoCardTypeUnchanged | plugins/Switcher/Switcher.js:319-323 | a scope selector with no card class gives the CSS unchanged after a scope comment |
| SnippetScopes.ScopeCss | plugins/Switcher/Switcher.js:319-374 | the rewrite loop computes the scoped text that the rule-by-rule specification gives, for the pattern as written (`AsWritten`) and for the corrected one |
| SnippetScopes.Lookup | plugins/Switcher/Switcher.js:316 | the value of the last entry under the name (no later entry has it), as a parsed object keeps the last duplicate; none when no entry has the name |
| SnippetScopes.ScopeSelector | plugins/Switcher/Switcher.js:316 | the scope's selector when it is set and non-empty, else `body` |
| SnippetScopes.ScopedCss | plugins/Switcher/Switcher.js:315-375 | the loop over the selected scopes joins their scoped texts with newlines, for either match |
| Switcher.NormalizeSnippet | plugins/Switcher/Switcher.js:448-462 | a non-object fails; a string becomes a snippet for that file with the default scopes; an object fails exactly when it has neither name nor file, and otherwise keeps its name, file, variables and scopes |
| Switcher.FileNameStem | plugins/Switcher/Switcher.js:451 | `stem.css` is named `stem` when the stem has no dot |
| Switcher.NamingDiffersFromDev | plugins/Switcher/Switcher.js:448-462 | this version removes an inner `.css` and rejects an empty object, where the development core keeps it and names the object `unnamed` |
| Switcher.InnerCssRemoved | plugins/Switcher/Switcher.js:451 | the first `.css`, even an inner one, is removed from a file name |
| Switcher.InnerCssKept | plugins/Switcher-dev/Switcher-core.js:746 | the development core removes only a trailing `.css` |
| Switcher.ChooseScheme | plugins/Switcher/Switcher.js:492-513 | a listed requested scheme wins; otherwise a listed saved scheme, else the first listed one; the result is listed or there is none; without a saved scheme it agrees with the development core |
| Switcher.SwitcherState.constructor | plugins/Switcher/Switcher.js:39-50 | the state starts from the given store, themes, colour schemes and snippets, with no theme and no scheme |
| Switcher.SwitcherState.GetThemeVar | plugins/Switcher/Switcher.js:91-94 | without both a theme and a scheme the value is null; otherwise it is the stored value under the variable's key |
| Switcher.SwitcherState.VarKeysDistinct | plugins/Switcher/Switcher.js:93 | two different variables never share a key |
| Switcher.SwitcherState.SetThemeVar | plugins/Switcher/Switcher.js:96-99 | without a theme and a scheme nothing changes; otherwise the variable reads back and no other variable changes |
| Switcher.SwitcherState.RemoveThemeVar | plugins/Switcher/Switcher.js:101-104 | the variable reads as null afterwards, and no other variable changes |
| Switcher.SwitcherState.ResolveValue | plugins/Switcher/Switcher.js:139-153 | a non-empty saved value wins, then a non-empty scheme value, then the computed value |
| Switcher.SwitcherState.ResolveEmpty | plugins/Switcher/Switcher.js:139-153 | the result is empty exactly when none of the three levels gives a non-empty value |
| Switcher.SwitcherState.GetScopes | plugins/Switcher/Switcher.js:389-393 | `["all"]` without a theme, a scheme or a stored list; otherwise the parse of the stored list, which may fail |
| Switcher.SwitcherState.SnippetKeysDistinct | plugins/Switcher/Switcher.js:398-399 | flag and scope keys never collide, and different snippets have different keys |
| Switcher.SwitcherState.SetEnabled | plugins/Switcher/Switcher.js:395-420 | the flag and the stringified scopes are stored and two storage events are dispatched; afterwards the flag and scopes read back and other snippets are unchanged |
| Switcher.SwitcherState.WriteSnippetKeys | plugins/Switcher/Switcher.js:404-405 | the flag and scope keys get the new texts, and every other snippet's flag and scopes read as before |
| Switcher.SwitcherState.SyncFixedKeys | plugins/Switcher/Switcher.js:1237-1256 | removing the theme key switches to no theme, the scheme key alone does nothing, and a null key throws |
| Switcher.SwitcherState.SyncVarKey | plugins/Switcher/Switcher.js:1258-1286 | a change to a variable key updates that variable |
| Switcher.SwitcherState.SyncFlagKey | plugins/Switcher/Switcher.js:1289-1334 | a change to a snippet's flag key re-applies the first listed snippet of that name with its stored flag and scopes, except that a listed empty file name, found but false, does nothing |
| Switcher.SwitcherState.SyncSnippetVarKey | plugins/Switcher/Switcher.js:1337-1353 | a non-empty change to a snippet-variable key updates that variable of the first snippet whose name prefixes the key |
| Switcher.SnippetVarKeyShape | plugins/Switcher/Switcher.js:1337-1339 | a snippet-variable key is recognised only as such, and stripping its prefix leaves the snippet name, `-` and the variable |
| Switcher.FindSnippet | plugins/Switcher/Switcher.js:1294-1296 | the entry found is the first that normalises to the name; none found means every entry normalises to another name; the search throws at an entry that cannot be normalised when no earlier entry has the name |
| Switcher.SplitSnippetVarKeySpec | plugins/Switcher/Switcher.js:1344-1351 | the split is at the first listed snippet whose name and `-` prefix the remainder; none such gives no split |
| Switcher.SplitAtFirst | plugins/Switcher/Switcher.js:1344-1351 | the first prefixing snippet decides the split |
| Switcher.SplitSnippetVar | plugins/Switcher/Switcher.js:1344-1351 | the loop computes the split the specification gives |
| Switcher.PrefixNamesShadow | plugins/Switcher/Switcher.js:1344-1351 | with snippets `a` and `a-b`, the key remainder `a-b-c` goes to `a` with variable `b-c` |
| SwitcherUI.ToggleSection | plugins/Switcher-dev/Switcher-UI.js:155-162 | the expanded flag flips, and the header's two attributes and the content's attribute are all equal |
| SwitcherUI.SnippetNameLabel | plugins/Switcher-dev/Switcher-UI.js:301-307 | the label shows the display name and keeps the original name as its title |
| SwitcherUI.DisplayNameChars | plugins/Switcher-dev/Switcher-UI.js:301-305 | the display name is as long as the name, no `-` or `_` remains, and a character is upper-cased exactly when it starts the name or follows a `-`, `_` or space |
| SwitcherUI.DisplayNameExample | plugins/Switcher-dev/Switcher-UI.js:301-305 | `ab-c_d` is shown as `Ab C D` |
| SwitcherUI.CreateThemeOption | plugins/Switcher-dev/Switcher-UI.js:113-125 | the option keeps its text and theme, and has a scheme exactly when the scheme name is truthy |
| SwitcherUI.DefaultOption | plugins/Switcher-dev/Switcher-UI.js:35 | the default option is `Default` for `no-theme`, with no scheme |
| SwitcherUI.MainOption | plugins/Switcher-dev/Switcher-UI.js:57 | a theme's main option carries the theme name as text, theme and scheme |
| SwitcherUI.SchemeListSpec | plugins/Switcher-dev/Switcher-UI.js:68-77 | the list holds an option for every non-empty scheme except the one named like the theme, and nothing else, each labelled with its capitalised name |
| SwitcherUI.SchemeItems | plugins/Switcher-dev/Switcher-UI.js:68-77 | the loop builds the scheme list the specification gives |
| SwitcherUI.CheckedScopesSpec | plugins/Switcher-dev/Switcher-UI.js:496-500 | the selected scopes are empty exactly when nothing is checked, and hold exactly the scopes of checked boxes |
| SwitcherUI.StoreSelection | plugins/Switcher-dev/Switcher-UI.js:503-504 | the flag and scopes are stored and read back, when a theme and scheme are set |
| SwitcherUI.SetAllChecked | plugins/Switcher-dev/Switcher-UI.js:389 | every checkbox takes the given state |
| SwitcherUI.ToggleAllScopes | plugins/Switcher-dev/Switcher-UI.js:376-402 | every checkbox becomes on exactly when none was checked, the selection is all scopes or none accordingly, the toggle's `data-active` shows the new state, and the store, like a panel rebuilt from it, agrees |
| SwitcherUI.ScopeCheckboxChanged | plugins/Switcher-dev/Switcher-UI.js:488-511 | the snippet is enabled exactly when some scope is checked, the selection is the checked scopes, the toggle shows it, and the store, like a rebuilt panel, agrees |
| SwitcherUI.RebuiltPanel | plugins/Switcher-dev/Switcher-UI.js:484 | a panel rebuilt from the stored flag and scopes checks exactly the boxes that were checked, when scopes are distinct |
| SwitcherUI.ScopeNames | plugins/Switcher-dev/Switcher-UI.js:434 | the names of the snippet's scopes, in order |
| SwitcherUI.DefaultScope | plugins/Switcher-dev/Switcher-UI.js:436 | the first scope's name when it is non-empty, else `all` |
| SwitcherUI.CheckboxChanged | plugins/Switcher-dev/Switcher-UI.js:410-444 | with a panel every scope box follows the checkbox and the selection is all scopes or none; without one it is the default scope or none; the store agrees |
| SwitcherUI.InputValue | plugins/Switcher-dev/Switcher-UI.js:545-568 | a saved value is shown with the first occurrence of the unit removed; otherwise the default, or empty |
| SwitcherUI.VarInputValue | plugins/Switcher-dev/Switcher-UI.js:540-568 | there is no input without a theme and a scheme; otherwise it shows the stored snippet variable |
| SwitcherUI.StoredValueAsWritten | plugins/Switcher-dev/Switcher-UI.js:571-575 | as written, the unit is appended only when the type is exactly `number` and a unit is given |
| SwitcherUI.StoredValue | plugins/Switcher-dev/Switcher-UI.js:561-575 | corrected: the unit is appended for every number input, which includes those without a type |
| SwitcherUI.StripAppended | plugins/Switcher-dev/Switcher-UI.js:565 | removing the first occurrence of a unit from a value followed by that unit gives the value, when the value does not contain the unit's first character |
| SwitcherUI.StoredValueShown | plugins/Switcher-dev/Switcher-UI.js:564-575 | a stored number value is shown again as entered |
| SwitcherUI.UntypedUnitLost | plugins/Switcher-dev/Switcher-UI.js:561-575 | an untyped variable with unit `px` shows `12px` as `12`; as written the change handler stores `12`, corrected it stores `12px` |
| SwitcherUI.MarkActive | plugins/Switcher-dev/Switcher-UI.js:592-604 | each element's `data-active` is `true` exactly when its attribute equals the value, and nothing else changes |
| SwitcherUI.HighlightActiveTheme | plugins/Switcher-dev/Switcher-UI.js:592-597 | exactly the main options of the theme are marked active |
| SwitcherUI.HighlightActiveScheme | plugins/Switcher-dev/Switcher-UI.js:600-615 | exactly the scheme options of the scheme are marked active, and the theme's scheme list is expanded when a scheme differing from the theme is current |
| SwitcherUI.EntryActive | plugins/Switcher-dev/Switcher-UI.js:117-118 | a scheme option is marked active exactly when the scheme equals its own scheme |
| SwitcherUI.OptionAttrs | plugins/Switcher-dev/Switcher-UI.js:117-118 | an option always has `data-theme`, and a `data-scheme` exactly when it has a scheme |

## Left out

- I/O and the host: `fetch` of JSON and CSS, `has_default_image` ETag probing, Coloris loading and `<link>` onload, `csLib.getConfiguration`/`setConfiguration` and `localStorage`. Fetched and stored data are given as input values or as a map field.
- Timing: the `MutationObserver` wiring, `setTimeout`, `requestAnimationFrame`, `Promise.race` timeouts and `window.csLib` polling. Mutation batches and timer firings are explicit calls; the save timer is modelled by its identity only, and the save itself (`setConfiguration`) is not modelled.
- Asynchronous interleavings other than the save timer's, and re-entrant listeners, are not modelled; each call runs to completion.
- The DOM beyond attribute maps, class sets and text fields: element construction, styles, folder-tree colouring, SVG markup, `btoa`, layout measurement, `getComputedStyle` (the computed CSS value is a parameter of `ResolveValue`) and event-listener attachment.
- `Math.random` colours are a parameter (`ColorForStudio`'s `randomColor`).
- Case mapping covers ASCII letters only; `toLowerCase`/`toUpperCase` on other characters are taken as the identity.
- `charCodeAt` is taken as the character's code; astral characters, which JavaScript sees as two code units, are not distinguished.
- ElementReady.Marker: a key that derives to "" is treated as an ordinary marker name; the DOM would throw on `setAttribute("")`.
- TagParser.FindMatch: the greedy quantifiers are modelled by the `Prefers` order; that backtracking returns the preferred match is the stated design, not derived from a regex engine.
- ColorCodedTags.StashDbNames: the global `match` that splits the tag list into pieces is not modelled; the pieces are the input.
- `mapTagsForDraft`'s loop over StashDB tags, including `setNativeValue` and the race with the timeout, is modelled only through the per-option handler `DraftTags.OnOption`.
- StudioLogo.ThresholdsAreRatios, StudioLogo.FillThresholdsAreRatios: float division is replaced by exact rationals, which agree with the source's doubles for sizes in practical range.
- StudioLogo.PlaceholderLayout: only initials, lines and font size are modelled; the SVG string and the vertical centring are presentation.
- SwitcherJson.Parse: accepts exactly JSON arrays of strings (with escapes, including `\u` escapes of single code units); other JSON values are parse errors, which `getScopes` treats like any failed parse.
- Object key order: the scope map and the settings are entry sequences in insertion order; numeric-like keys, which JavaScript orders first, are not distinguished.
- Prototype keys such as `__proto__` or `toString` in the key map and the category table are not modelled.
- `null` and `undefined` are distinguished only where the source compares or prints them, except in snippet objects (next line).
- Switcher.NormalizeSnippet: a snippet object's `name: null` is not told apart from a missing name. With an empty or missing file, the model gives the file `undefined.css` and the source gives `null.css`.
- ElementReady.Pass: a callback is a total function and never throws. In the source, a throw ends the `forEach` of that scan. In the initial pass it also rejects the promise before the observer is created. `colorCodeTag` throws this way on a tag element without an `a > div` child.
- StudioLogo.ApplyOverride: classes are a set, and `classList.add`/`remove` are set union and difference. The DOM throws on an empty token or one containing white space, so a list with such a token changes nothing after the throw; the model applies the other classes. An override entry that is `null` or otherwise falsy is skipped by the source; the model's override map holds only override objects, so such an entry is modelled as a missing key.
- SwitcherUI.InputValue: the text assigned to the input. A `number` input sanitises a non-numeric value to the empty string; the model shows the text unchanged.
- SwitcherCore.StorageManager.KeysMatching: a set, so the order of `Object.keys` is not kept. The core has no caller of `getKeysMatching`.
- Switcher.SwitcherState.SyncFlagKey: a flag key whose snippet name itself contains the scope prefix is excluded by its precondition.
- The single-file `disableAll` and `getAvailableSchemes` are the same code as the development core's and are modelled there only (`SwitcherCore.DisableAll`, `SwitcherCore.StateManager.AvailableSchemes`).
- `ThemeManager.apply`'s DOM effects: loading the theme stylesheet, rebuilding the UI and variable inputs.
- The `select` branch of `createVarInput` (549-558) and the `setVar` call on change are not modelled. `VarInputValue` covers the number and text inputs.
- SwitcherUI.ToggleAllScopes: the missing scope panel, which throws in the source, is not modelled; the panel's checkboxes are the input.
- The UI handlers model the path where the snippet container and the toggle are found; the early returns when they are missing change nothing.
- SwitcherUI.HighlightActiveScheme: the `querySelector` for the theme's scheme list is replaced by the list passed in, or null.
- The collapse and expand click handlers of the theme list (36-41, 84-96), the `no-theme` click handler (120-122) and the "Loading themes..." branch (44-53) are DOM wiring.

## Findings

| source | as written | input that shows it | evidently intended | confidence | as-written member | corrected member |
|---|---|---|---|---|---|---|
| plugins/Switcher-dev/Switcher-core.js:86-100 | after awaiting the save, the timer callback sets the pending handle to null whether or not a newer timer was armed meanwhile | set, then the timer fires and its save is in flight, set again (arming timer 2), then the first save settles (handle cleared), then set again: timer 2 is never cleared, so two timers are armed | at most one pending save: only the callback whose handle is still pending clears it | medium; not executed | SwitcherCore.CompleteAsWritten, SwitcherCore.TwoTimersAsWritten | SwitcherCore.Complete, SwitcherCore.TimersPreserved |
| plugins/Switcher/Switcher.js:351 | the selector pattern has no boundary after the card class | a scope for `.a-card` and the selector `.a-card-x` (a different class): it is kept as `.a-card` with descendant `-x` and rewritten under the scope | only selectors whose leading class is exactly the card class are kept | medium; not executed | SnippetScopes.MatchCardAsWritten, SnippetScopes.CardBoundaryExample, SnippetScopes.RuleBoundaryExample | SnippetScopes.MatchCard, SnippetScopes.MatchersAgree |
| plugins/Switcher-dev/Switcher-UI.js:561-575 | the input's type defaults to `number`, but the change handler appends the unit only when the declared type is exactly `number` | a variable with unit `px` and no type, stored as `12px`: it is shown as `12`, and on change `12` is stored, losing the unit | probably that the unit is appended for every number input, as it is stripped for every one; the development core's `applyVars` (Switcher-core.js:615-617) also appends it only for a declared `number`, so this intent is less certain | low; not executed | SwitcherUI.StoredValueAsWritten, SwitcherUI.UntypedUnitLost | SwitcherUI.StoredValue, SwitcherUI.StoredValueShown |
