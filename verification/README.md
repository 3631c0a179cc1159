# GPT Side Runner — a verified model of its settings and prompt logic

GPT Side Runner is a browser extension that sends the current page to an AI
chat service. The user keeps a list of *prompt slots*. Each slot has a name,
a template with the placeholders `{url}`, `{title}` and `{selection}`, a
target service (ChatGPT, Perplexity, Gemini or Grok), a temporary-chat flag
and the size and side of the popup window. The slot is run from the context
menu or from one of three hotkeys. The background worker then builds the
prompt and the service URL and opens a popup window next to the current one.

This project models, in Dafny, the parts of the three scripts that decide
what is stored and what is opened:

- `options.js`: the options page's sanitisers, HTML escaping, slot-list
  edits, import and load/reset (modules `Options` and `OptionsUi`);
- `bg.js`: the background worker's sanitisers, prompt and URL building, the
  slot choice, the popup geometry, the context menu and the hotkeys
  (modules `Registry`, `Prompt`, `Background` and `Menu`);
- `popup.js`: the toolbar popup's sanitisers and string table (module `Popup`).

Shared pieces are defined once:

- `JsValues` holds JavaScript values as stored: missing, null, booleans,
  numbers including NaN and the infinities, strings, arrays and objects.
  It also holds their truthiness and their `Number`/`String` conversions.
- `Schema` holds the repaired records and the constant tables.
- `Preferences` holds the settings sanitisers. options.js and bg.js each
  carry an identical `sanitizeSettings`. popup.js has no `sanitizeSettings`:
  it repairs the language and the theme on their own, without the object
  check, and `Popup.PopupAgreesWithSettings` shows that this gives the
  same result.

The options page and the worker each carry their own slot sanitiser and
their own `clamp`, and the two copies differ. Both are modelled, and
`Background.SanitizersAgree` proves where they agree.

The environment is a parameter:

- The UI language the browser reports is `detected`.
- `Env` supplies what the model does not reproduce: parsing of numeric
  strings other than "" and plain digit strings, the `String()` of numbers,
  arrays and objects, and `encodeURIComponent`.
- Storage contents, the active tab, the page selection and the current
  window's bounds are inputs.
- The window to create and the menu entries are outputs.

## Model

| member | source | states |
|---|---|---|
| Options.Clamp | options.js:1 | a non-finite value (NaN, ±∞) gives `min`; a finite value is clamped into [min, max] and kept when already inside |
| Options.EscapeHtml | options.js:188-194 | the four sequential replace-all passes equal character-wise escaping of `String(value)`, so the result holds no `<`, `>` or `"` |
| Options.EscapeHtmlRoundTrip | options.js:188-194 | escaping loses nothing: decoding the four entities gives back `String(value)` |
| Options.SanitizeService | options.js:196-198 | the identity on the four service ids given as strings; anything else (any non-string included) gives chatgpt |
| Options.ServiceSupportsTemporary | options.js:200-203 | true exactly for the string "chatgpt" |
| Preferences.SanitizeLanguage | options.js:205-209 | "ja" and "en" are kept, anything else gives the detected language; the same function is bg.js:150-154 and popup.js:29-33 |
| Preferences.SanitizeTheme | options.js:211-213 | "dark" iff given exactly "dark", "light" iff given exactly "light", else "system"; also bg.js:156-158 and popup.js:35-37 |
| Preferences.SanitizeLanguageIdempotent | popup.js:29-33 | the stored code of a repaired language repairs to itself |
| Preferences.SanitizeThemeIdempotent | popup.js:35-37 | the stored code of a repaired theme repairs to itself |
| Preferences.SanitizeSettings | options.js:215-223 | a falsy or non-object record gives the defaults; otherwise "ja" and "en" are kept, any other language gives the detected one, and the theme is repaired (both directions); also bg.js:160-168 |
| Preferences.SettingsRoundTrip | options.js:215-223 | every settings record survives being stored and repaired again |
| Preferences.SanitizeSettingsIdempotent | options.js:215-223 | `sanitizeSettings` is idempotent |
| Options.GetDefaultSlots | options.js:229-233 | the three default slots of the repaired language, all valid chatgpt temporary right-side slots; bg.js:175-179 is the same function |
| Schema.DefaultSlots | options.js:121-180 | three slots, each valid, chatgpt, temporary and on the right |
| Options.Ratio | options.js:240-241 | `clamp(Number(x) \|\| fallback, min, max)`: NaN and 0 give the fallback, ±∞ give min, an in-range number is kept, a finite number below min gives min and one above max gives max; the result is always in range |
| Options.SanitizeSlot | options.js:237-249 | one repaired slot is valid; the name is kept when truthy, else prefix + (index+1); the template is kept unless nullish; each ratio gets its fallback for NaN and 0, min for ±∞, itself when in range, and the nearer bound when finite and out of range; position is left only for exactly "left"; the service is repaired; temporary is set only for chatgpt and then defaults to true |
| Options.SanitizeSlots | options.js:235-252 | same length, entry i is the repair of input i at position i, all valid |
| Options.SlotRoundTrip | options.js:235-252 | a valid slot survives being stored and repaired again, at any position |
| Options.SanitizeSlotsIdempotent | options.js:235-252 | `sanitizeSlots` is idempotent for a fixed language |
| Options.HotkeyFallback | options.js:256 | [0, 1, 2] clamped to the largest slot index, which is a valid map |
| Options.SanitizeHotkeyMap | options.js:254-265 | always three entries in [0, max(slotCount−1, 0)]; a non-array or wrong length gives the fallback; a finite entry is clamped (kept when in range), a non-finite one replaced by the fallback entry |
| Options.HotkeyMapClampsHigh | options.js:254-265 | [5, 5, 5] with three slots becomes [2, 2, 2] |
| Options.HotkeyMapKeepsFractions | options.js:254-265 | entries are not rounded: 0.5 stays 0.5 |
| Options.HotkeysRoundTrip | options.js:254-265 | a valid map survives being stored and repaired again |
| Options.SanitizeImportedPayload | options.js:550-558 | null exactly for a falsy or non-object payload; otherwise repaired settings, slots sanitised from a non-empty list or else the language defaults (never empty), and the hotkey map is `sanitizeHotkeyMap` of the payload's map against the new slot count, so each entry indexes into the slot list |
| Options.ImportExportRoundTrip | options.js:528-558 | importing an exported state gives back the same slots, hotkeys and settings |
| OptionsUi.Swap | options.js:504 | the destructuring swap exchanges two entries, leaves the others alone and keeps the multiset |
| OptionsUi.InsertAt | options.js:513 | `splice(i, 0, x)` puts x at i, keeps earlier entries and shifts later ones up |
| OptionsUi.RemoveAt | options.js:524 | `splice(i, 1)` drops entry i, keeps earlier entries and shifts later ones down |
| OptionsUi.Moved | options.js:502-504 | the moved list is a permutation, unchanged when the target index is outside the list |
| OptionsUi.MoveThenMoveBack | options.js:499-506 | moving a slot and moving it back restores the list |
| OptionsUi.RemoveInserted | options.js:508-526 | removing the slot a duplication inserted restores the list |
| OptionsUi.NewSlot | options.js:487-495 | the appended slot is valid, named prefix + (n+1), empty template, chatgpt, temporary |
| OptionsUi.Copy | options.js:511-512 | the copy is the same slot with `String(name)` + copy suffix as its name, still valid |
| OptionsUi.OptionsPage.constructor | options.js:475-480 | the page starts as `reset` leaves it: default settings, default slots, hotkeys [0, 1, 2] |
| OptionsUi.OptionsPage.Render | options.js:389-398 | the shown list is the repaired input, or the defaults for an empty or non-array list; the hotkeys are repaired against the new length; the page stays valid |
| OptionsUi.OptionsPage.RenderValid | options.js:389-398 | rendering an already valid list shows it unchanged |
| OptionsUi.OptionsPage.Load | options.js:587-594 | settings are the repaired stored settings; slots and hotkeys are the repaired stored ones, or the defaults |
| OptionsUi.OptionsPage.Reset | options.js:475-482 | default settings, the detected language's default slots, hotkeys [0, 1, 2] |
| OptionsUi.OptionsPage.AddSlot | options.js:484-497 | appends exactly one default slot; hotkeys and settings unchanged; the page stays valid |
| OptionsUi.OptionsPage.MoveSlot | options.js:499-506 | swaps the slot with its neighbour, or changes nothing when the neighbour is outside the list; hotkeys unchanged |
| OptionsUi.OptionsPage.DuplicateSlot | options.js:508-515 | inserts the renamed copy right after the original and shifts the rest; hotkeys unchanged |
| OptionsUi.OptionsPage.RemoveSlot | options.js:517-526 | refused with nothing changed when one slot is left; otherwise exactly slot `index` is removed and the hotkeys are clamped to the shorter list |
| OptionsUi.OptionsPage.HandleImport | options.js:560-585 | an accepted payload replaces settings, slots and hotkeys with the importer's result; a rejected one changes nothing |
| Registry.Lookup | bg.js:4-35 | finds a service exactly by its id |
| Registry.BuildUrl | bg.js:8-33 | the exact URL per service: chatgpt with or without `temporary-chat=true&`, perplexity, gemini and grok with their fixed prefix, each followed by `q=` and the encoded prompt |
| Registry.BuildUrlIgnoresTemporary | bg.js:14-33 | services without temporary chat ignore the flag |
| Registry.BuildUrlInjective | bg.js:4-35 | a URL determines its service, the encoded prompt and, for chatgpt, the temporary flag |
| Registry.BuildUrlTemporaryChat | bg.js:8-12 | the temporary-chat URL is opened exactly for chatgpt with the flag set |
| Prompt.BuildPrompt | bg.js:138-144 | three literal replace-all passes in the order url, title, selection; a falsy template gives "" |
| Prompt.BuildPromptNoPlaceholders | bg.js:138-144 | a template without the three placeholders comes back unchanged |
| Prompt.BuildPromptFillsInOrder | bg.js:138-144 | a template "{url} {title} {selection}" receives the three values verbatim when the URL and the title contain no `{` |
| Prompt.BuildPromptExample | bg.js:138-144 | "{url} {title} {selection}" with "https://a", "T" and "S" gives "https://a T S" |
| Prompt.SelectionNotRescanned | bg.js:140-143 | the selection value is never rescanned: "{selection}" gives the selection verbatim |
| Prompt.UrlValueRescanned | bg.js:140-143 | `{title}` and `{selection}` inside the URL value are replaced by the later passes |
| Prompt.TitleValueRescanned | bg.js:140-143 | `{selection}` inside the title value is replaced, `{url}` inside it is not |
| Prompt.AsWrittenIsLiteralWithoutDollar | bg.js:138-144 | without `$` in URL, title and selection, the engine's replacement equals the literal one |
| Prompt.AsWrittenExpandsDollar | bg.js:140-143 | the selection "$&" on the template "{selection}" gives "{selection}" as written, "$&" literally |
| Replace.JsReplaceAllLiteral | bg.js:140-143 | `replaceAll` with a replacement string free of `$` is literal replacement |
| Background.BgClamp | bg.js:132 | NaN stays NaN; +∞ gives max and −∞ min; a finite value is clamped into [min, max] |
| Background.BgRatio | bg.js:186-187 | NaN and 0 give the fallback, +∞ the upper bound, −∞ the lower, an in-range value is kept, and a finite out-of-range value gives the nearer bound |
| Background.BgSanitizeService | bg.js:146-148 | the registry key is the value's string form: a value whose text is a service id selects it, anything else gives chatgpt; on strings it agrees with the options page |
| Background.BgSanitizeSlot | bg.js:183-197 | the worker's repaired slot is valid, with the same field rules as the options page except +∞ ratios go to the upper bound and the service key is the value's text |
| Background.BgSanitizeSlots | bg.js:181-198 | same length and order, entry i repaired at position i, all valid |
| Background.SanitizersAgree | bg.js:132 | the two slot sanitisers agree whenever no ratio is +∞ and the service is a string or names no service |
| Background.SanitizersDisagreeOnInfinity | bg.js:132 | on a +∞ width the options page gives 0.2, the worker 0.8 |
| Background.SanitizersDisagreeOnServiceArray | bg.js:146-148 | on `["gemini"]` the options page gives chatgpt, the worker gemini |
| Background.WorkerReadsSavedSlots | bg.js:181-198 | slots the options page saved are read back unchanged by the worker |
| Background.GetSlots | bg.js:217-226 | the list is never empty and always valid; a missing or empty stored list gives the repaired language's defaults and seeds storage, otherwise the stored list is repaired |
| Background.GetHotkeyMap | bg.js:228-231 | three entries: a stored array of length 3 as it is, else [0, 1, 2] |
| Background.CanonicalIndexOfDecimal | bg.js:238 | the decimal spelling of n is read as array index n |
| Background.ArrayIndex | bg.js:238 | a whole non-negative number names that index; a negative, fractional or non-finite number names none; a string names one only in canonical decimal form |
| Background.SlotAt | bg.js:238 | `slots[index] ?? slots[0]`: no slot exactly when the index names an inherited array property such as "length" or "map"; otherwise the named slot when in range and the first slot when not |
| Background.InheritedKeysAreNotIndices | bg.js:238 | no inherited property name is an array index, so the two readings of `slots[index]` never overlap |
| Background.SlotAtLength | bg.js:238 | a hotkey entry "length" reads the list's length, not a slot |
| Background.SlotAtNumber | bg.js:238 | a whole number in range selects that slot; a negative or fractional number selects the first |
| Background.Round | bg.js:263-264 | `Math.round` is within half a unit of its argument |
| Background.PopupGeometry | bg.js:257-265 | bounds default to 1280×800 at (0, 0); width and height are the rounded ratios of the window's size; top is the window's; a right slot's right edge meets the window's, a left slot's left edge too |
| Background.PopupFits | bg.js:257-265 | for a valid slot and a window of non-negative size, 0 ≤ w ≤ W, 0 ≤ h ≤ H and the popup lies between the window's edges |
| Background.PopupExample | bg.js:257-265 | 1000×800 at (100, 50) with ratios 0.5 on the right gives 500×400 at (600, 50) |
| Background.PageTitle | bg.js:244-245 | the tab's title, or the language's fallback title when it is missing or empty |
| Background.Selection | bg.js:247-250 | the given selection when it is a non-empty string; else the page's selection when the tab has a numeric id; else "" |
| Background.RunSlot | bg.js:235-275 | for a chosen slot, the window request opens its service URL for the built prompt (the literal prompt) with its temporary flag, at the popup geometry; for an inherited property, the default service with an empty prompt, NaN width and height, at the window's left and top |
| Menu.MenuId | bg.js:296 | the entry id starts with "slot_" |
| Menu.EntryTitle | bg.js:298 | always truthy, and the slot's name for a valid slot |
| Menu.RebuildMenu | bg.js:279-302 | no entries for an empty list; otherwise the parent entry, then entry i + 1 has id "slot_i", the parent id and the slot's title |
| Menu.MenuIdsDistinct | bg.js:294-301 | entry ids are distinct and differ from the parent's id |
| Menu.ClickedIndex | bg.js:312-314 | ids not starting with "slot_" are ignored; "slot_" alone names index 0 |
| Menu.ClickedIndexOfMenuId | bg.js:312-314 | the click handler reads index i back from the id of entry i |
| Menu.OnMenuClick | bg.js:312-317 | a click on a "slot_" entry runs the slot its id names, with the context's selection when it is a string |
| Menu.MenuEntryRunsItsSlot | bg.js:294-317 | clicking the entry built for slot i runs slot i |
| Menu.DispatchCommand | bg.js:321-326 | "run-hotkey-k" runs `map[k−1] ?? k−1`; any other command runs nothing |
| Menu.HotkeyRunsAssignedSlot | bg.js:321-326 | a saved hotkey entry h reaches the worker as h; a whole h runs slot h, a fractional one runs the first slot |
| Menu.DefaultHotkeys | bg.js:228-231 | without a stored map hotkey k runs slot k, or the first slot when there are fewer |
| Popup.StringsFor | popup.js:1-12 | the string table of each language; both languages are present, so the English fallback is never used |
| Popup.PopupInit | popup.js:87-95 | strings for exactly "ja"/"en" or else the detected language; theme dark/light exactly for "dark"/"light" |
| Popup.PopupAgreesWithSettings | popup.js:87-95 | the popup's field-by-field repair, without an object check, gives the same language and theme as `sanitizeSettings` |

## Left out

- The DOM: card and select rendering, `applyLocaleText`, `applyTheme` and
  its media-query listener, `updateTemporaryToggle` and `alert`.
  `OptionsUi.OptionsPage` keeps the rendered list and hotkeys as fields
  instead of reading them back from the form.
- The form readers `readSlotsFromUI`, `readHotkeysFromUI` and
  `readSettingsFromUI`: trimming, `parseFloat` and the disabled checkbox
  are left out. The slot edits start from the list last rendered.
- `save` and `exportSettings` file plumbing: Blob, object URL, file name
  timestamp, `FileReader`, and `JSON.parse`/`JSON.stringify`. Only the
  payload (`Options.ExportPayload`) and its sanitiser are modelled.
- All `chrome.*` calls: storage reads and writes, `tabs.query`,
  `scripting.executeScript`, `windows.getCurrent`/`create`, `contextMenus`,
  `commands`, `runtime`. Their results are inputs and their requests
  outputs. `Background.Loaded.seeds` says when `getSlots` writes defaults
  back; the write itself is not modelled.
- Locale detection (`chrome.i18n.getUILanguage`, `navigator.language`) is
  the parameter `detected`.
- gemini_content.js is not part of this model. It is DOM automation of a
  third-party page.
- Floating point: ratios, hotkey entries and window sizes are exact reals,
  and `Math.round` is floor(x + 0.5). Rounding errors of `Number` products
  are not modelled.
- Number parsing and printing: `Env.parseNumber` supplies general
  `Number(string)` results and `Env.text` the `String()` of numbers,
  arrays and objects. Only "" and plain digit strings are parsed
  concretely.
- `encodeURIComponent` is the opaque `Env.encode`. URL properties are
  stated in terms of it.
- Background.BgSanitizeService: the worker stores the raw `service` value
  when it is an own key of the registry (an array `["gemini"]` is stored
  as the array). The model stores the resolved service. Every later use
  (`runSlot` looks it up again) sees the same service.
- Background.ArrayIndex: numbers of 10^21 and above print in exponent
  form and are no array index in JavaScript. The model reads them as
  indices. Either way they lie past any slot list, so `slots[0]` is
  chosen in both.
- Background.SlotAt: the inherited property names are those of
  `Array.prototype` and `Object.prototype` in current engines. Names that
  a later edition adds are not listed. The value read is not modelled
  beyond its having no slot fields.
- Background.RunSlot: what `chrome.windows.create` does with a NaN width
  or height is not modelled. The request is the output.
- Background.RunSlot: the early return on an empty slot list is not
  modelled. `getSlots` never returns an empty list
  (`Background.GetSlots`), so it cannot be taken.
- Background.RunSlot and Menu.OnMenuClick use the literal prompt
  `Prompt.BuildPrompt`. What bg.js computes for values containing `$` is
  `Prompt.BuildPromptAsWritten` (see Findings).

## Findings

| source | as written | input that shows it | evidently intended | confidence | as-written member | corrected member |
|---|---|---|---|---|---|---|
| bg.js:140-143 | `buildPrompt` passes the page URL, title and selection to `String.prototype.replaceAll` as the replacement string. The engine treats that string as a template and expands `$$`, `$&`, `` $` `` and `$'` (the GetSubstitution operation of ECMA-262) | template "{selection}" with the selected text "$&" gives the prompt "{selection}", not "$&" | the values are inserted verbatim, for example by passing a replacer function `() => value` | not executed; follows from the ECMA-262 definition of GetSubstitution | Prompt.AsWrittenExpandsDollar | Prompt.SelectionNotRescanned |
