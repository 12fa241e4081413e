# Twitch chat overlay: settings and recent channels

This project models the main-screen script `src/main.js` of a desktop
overlay that shows a Twitch channel's popout chat. The parts modelled are:

- the preferences record, its defaults, and how a persisted copy is merged over it;
- the list of recently opened channels: at most five, most recent first, no repeats;
- how a typed channel name is checked and turned into the popout-chat URL;
- the handlers that change the preferences and send requests to the host window;
- the policy that click-through is never on while the main screen is shown. The one exception is the end of `openChat`, which turns it on just before it navigates away; the model takes those two steps as one.

Modules:

- `Wrappers` (`wrappers.dfy`): `Option` and `Result`.
- `RecentChannels` (`recent.dfy`): the recent-channels list as a pure value (`AddRecent`), with the invariant it keeps and the order it preserves.
- `ChannelName` (`channel.dfy`): whitespace trimming, lower-casing, the `^[a-z0-9_]+$` (case-insensitive) test, and the popout URL together with a reader that gets the channel back out of it.
- `SettingsStore` (`settings.dfy`): the `settings` record, its defaults, the persisted blob and the load merge.
- `Overlay` (`overlay.dfy`): class `App` holds the script's module-level state. Each handler is a method on it. Every request to the host shell, and the final navigation, is appended to a ghost log `effects`. `Valid()` states the click-through policy over that log.

The persisted slot is modelled as what `JSON.parse` returned. Whether the write succeeds is the `storageWritable` flag.

## Model

| member | source | states |
|---|---|---|
| RecentChannels.Without | src/main.js:345 | the filtered list contains exactly the old entries other than the channel, and is no longer than the old list |
| RecentChannels.WithoutCounts | src/main.js:345 | filtering keeps the count of every other channel and removes every copy of the channel |
| RecentChannels.AddRecent | src/main.js:343-351 | the new list is non-empty and holds at most five entries; the added channel is in front and occurs nowhere else |
| RecentChannels.AddRecentKeepsOrder | src/main.js:345-351 | the entries behind the new front are entries of the old list, in their old relative order |
| RecentChannels.AddRecentEvictsOnlyOldest | src/main.js:345-351 | on a list of at most five, nothing new appears except the channel, only the last (oldest) entry can be dropped, and nothing is dropped when the channel was already listed |
| RecentChannels.AddRecentKeepsNoDuplicates | src/main.js:343-351 | adding to a list without repeats gives a list without repeats |
| RecentChannels.AddRecentKeepsWellFormed | src/main.js:343-351 | adding to a list without repeats gives a list without repeats of at most five entries |
| RecentChannels.AddRecentIdempotent | src/main.js:343-351 | adding the same channel twice in a row is adding it once |
| RecentChannels.AddAllKeepsWellFormed | src/main.js:343-351 | any sequence of additions keeps a well-formed list well-formed |
| RecentChannels.AddRecentFresh | src/main.js:343-351 | a channel not in the list is put in front of the list, cut to four entries when it had five or more |
| RecentChannels.AddRecentToFull | src/main.js:348-351 | a new channel added to a full list evicts exactly its fifth entry |
| RecentChannels.FiveChannelsFill | src/main.js:343-351 | five distinct channels added to an empty list fill it, newest first |
| RecentChannels.SixChannelsEvictFirst | src/main.js:343-351 | after six distinct channels, the list holds the last five, newest first |
| RecentChannels.ReAddMovesToFront | src/main.js:345-348 | re-adding an earlier channel moves it to the front instead of repeating it |
| ChannelName.TrimStart | src/main.js:181 | the result is a suffix of the input; what was removed is whitespace; the result is empty or starts with a non-space |
| ChannelName.TrimEnd | src/main.js:181 | the result is a prefix of the input; what was removed is whitespace; the result is empty or ends with a non-space |
| ChannelName.Trim | src/main.js:181 | the trimmed text is empty exactly when the input is all whitespace; otherwise it starts and ends with a non-space |
| ChannelName.Lower | src/main.js:181 | lower-casing keeps the length, leaves no upper-case letter, turns each upper-case letter into its lower-case letter, and leaves every other character unchanged |
| ChannelName.LowerIdempotent | src/main.js:181 | lower-casing a lower-cased text changes nothing |
| ChannelName.MatchesChannelPattern | src/main.js:189 | the case-insensitive test `^[a-z0-9_]+$`: non-empty, and every character a letter, digit or `_` |
| ChannelName.Validate | src/main.js:180-192 | the input is rejected as empty exactly when it is all whitespace; an accepted name is non-empty and made of `a-z`, `0-9` and `_` only |
| ChannelName.LowerKeepsClass | src/main.js:181-189 | lower-casing neither adds nor removes pattern matches; a matching name lower-cases to a normal name |
| ChannelName.TrimPadded | src/main.js:181 | trimming a text that starts and ends with non-spaces, with whitespace around it, gives that text back |
| ChannelName.ValidateAcceptsPadded | src/main.js:180-192 | a name of letters, digits and `_`, with whitespace around it, is accepted as the name lower-cased |
| ChannelName.TrimBounds | src/main.js:181 | the trimmed text is a contiguous slice of the input with only whitespace before and after it |
| ChannelName.TrimmedNameShape | src/main.js:181-189 | when the trimmed text matches the pattern, the input is name characters with whitespace only at the ends |
| ChannelName.ValidateAcceptsOnlyPadded | src/main.js:180-192 | whatever is accepted is the lower-cased trimmed input, and that input is name characters with whitespace only at the ends |
| ChannelName.ValidateNormal | src/main.js:180-192 | a name that is already normal is accepted unchanged |
| ChannelName.ValidateIdempotent | src/main.js:180-192 | validating an accepted name again accepts it unchanged |
| ChannelName.ValidateAcceptsExamples | src/main.js:180-192 | `shroud` and `user_123` are accepted unchanged |
| ChannelName.ValidateRejectsForeign | src/main.js:188-191 | a trimmed text holding a character outside the class is rejected as invalid, not as empty |
| ChannelName.ValidateRejectsInnerSpace | src/main.js:188-191 | `a b` is rejected as invalid, not as empty |
| ChannelName.ValidateRejectsBlank | src/main.js:183-186 | `""` and `" \t"` are rejected as empty input |
| ChannelName.PopoutUrl | src/main.js:210-211 | the popout-chat URL for a channel and a theme |
| ChannelName.PopoutUrlRoundTrip | src/main.js:210-211 | the channel a URL was built from reads back out of that URL |
| ChannelName.PopoutUrlTheme | src/main.js:210-211 | the URL asks for the dark popout exactly when the theme is `dark` |
| SettingsStore.Defaults | src/main.js:8-14 | the initial settings: opacity 100, always-on-top and click-through off, dark theme, no recent channels |
| SettingsStore.Merge | src/main.js:67 | each field present in the saved object overrides the current one; each absent field keeps the current value |
| SettingsStore.Serialize | src/main.js:76 | the written record carries every field, so merging it over any settings gives the record back |
| SettingsStore.Load | src/main.js:63-72 | a missing, empty or unparseable blob keeps the settings; a parsed one is merged over them |
| SettingsStore.LoadAfterSave | src/main.js:63-80 | the saved record, loaded back over any settings, is the saved record |
| SettingsStore.LoadIdempotent | src/main.js:63-72 | loading the same blob twice is loading it once |
| SettingsStore.LoadNoFieldsKeeps | src/main.js:63-72 | a parsed object with none of the known fields changes nothing |
| SettingsStore.LoadOpacityOnly | src/main.js:8-14 | a blob saving only `opacity: 50` gives 50 plus the defaults for the rest |
| SettingsStore.LoadTakesListAsIs | src/main.js:63-72 | a persisted recent list is taken as it is, so a loaded list need not be short or free of repeats |
| Overlay.ClickThroughAfter | src/main.js:335-341 | how one more request changes the click-through state and whether the main screen has been left |
| Overlay.App.Valid | src/main.js:92-95 | the click-through policy: while the script is on the main screen and has not navigated away, the last click-through request, if any, turned it off |
| Overlay.App.constructor | src/main.js:5-14 | the state starts with the default settings, no channel, not on the chat, and nothing requested |
| Overlay.App.SaveSettings | src/main.js:74-80 | the whole record is persisted when the write succeeds; otherwise the slot is unchanged |
| Overlay.App.LoadSettings | src/main.js:63-72 | the settings become the load of the stored blob over the old settings |
| Overlay.App.ApplySettings | src/main.js:82-99 | the controls show the settings; opacity and always-on-top are requested; click-through is requested off, whatever the preference |
| Overlay.App.RenderRecentChannels | src/main.js:357-376 | an empty list is hidden; otherwise the list is shown with one button per channel, in order |
| Overlay.App.Startup | src/main.js:23-38 | on the chat host nothing changes; otherwise the settings are loaded, the opacity, always-on-top and click-through-off requests are made in that order, every control shows its setting, and the list is hidden when empty or shows one button per channel |
| Overlay.App.AddToRecentChannels | src/main.js:343-355 | the list becomes `AddRecent` of the old list; the other settings are kept; the record is persisted and re-rendered |
| Overlay.App.ClearHistory | src/main.js:173-177 | the list becomes empty and the other settings are kept; the record is persisted and the list hidden |
| Overlay.App.ToggleAlwaysOnTop | src/main.js:119-123 | only always-on-top changes; it is requested and persisted |
| Overlay.App.ToggleClickThrough | src/main.js:126-136 | the preference is always stored and persisted, but requested only while on the chat, so click-through stays off on the main screen |
| Overlay.App.SlideOpacity | src/main.js:139-148 | only the opacity changes and it is requested; it is not persisted |
| Overlay.App.ReleaseOpacity | src/main.js:150-152 | the record is persisted |
| Overlay.App.SelectTheme | src/main.js:155-161 | only the theme changes, and it is persisted; the frame refresh is asked for exactly when a channel is open |
| Overlay.App.ResetSize | src/main.js:164-170 | only a window-size reset is requested |
| Overlay.App.OpenChat | src/main.js:180-215 | empty input focuses the box and invalid input is refused, both with no change of state or of the buttons; an accepted name becomes the current channel, is added to the recent list, which is persisted and re-rendered, and is navigated to, after a click-through request when that preference is on |
| Overlay.App.EnterChannel | src/main.js:194-214 | the accepted branch: the current channel is set, the recent list is updated, persisted and re-rendered, the optional click-through request is made, then the popout URL is navigated to |
| Overlay.App.ClickRecentButton | src/main.js:370-373 | a recent button does what `openChat` does on its label: the same outcome, the same new state and the same requests |

## Left out

- Element lookup (`cacheElements`), listener wiring (`setupEventListeners`), `toggleSettings`, `closeChat`, `refreshChat` and the chat/main screen switch are not modelled: they are DOM bookkeeping with no state of the core.
- `injectCustomCSS` and its mutation observer are not modelled: they only style the page.
- The empty stubs `createChatPage` and `openTwitchChatWindow` are not modelled.
- `localStorage` and JSON are abstracted. The model sees the blob after parsing, as a record of optional fields. A field of the wrong JSON type, and keys other than the five known ones, are not modelled.
- A failing write is the `storageWritable` flag. The error is only logged, and the log is not modelled.
- Host calls (`invoke`) are asynchronous and their failures are only logged. The model records the request, in the order the script issues it, and not whether the host honours it. `src-tauri/src/lib.rs` is not part of this model, including its clamping of the opacity value.
- The 100 ms wait in `openChat`, and any handler running during it, are not modelled: this is concurrency. During that wait the main screen is still shown with click-through on. The model appends the click-through request and the navigation in one step, so `Overlay.App.Valid` does not see that window. The URL uses the theme as it is when the handler starts.
- Opacity is kept as the integer percentage. `parseInt` on the slider text and the `opacity / 100` fraction sent to the host are not modelled: that is text parsing and floating point.
- Trimming and lower-casing cover ASCII whitespace and ASCII letters only. JavaScript's Unicode rules, such as the Kelvin sign lower-casing to `k`, are not modelled.
- Startup reads the hostname check (`hostname.includes('twitch.tv')`) as the parameter `onTwitchHost`.
- `SelectTheme`: `updateChatFrame` is not defined in `src/main.js`. The model reports, as `refreshFrame`, whether the handler would call it.
- `isOnTwitchChat` is never set true in `src/main.js`. The branch of the click-through toggle that requests the effect is modelled, but nothing in the script reaches it.
- The initial values of the controls before `applySettings` come from the page markup, which is not part of this model. The constructor uses the default settings for them.
- The filter, `unshift` and `slice(0, 5)` at src/main.js:345-351 keep the recent list at most five long and free of repeats, but only while it is changed by adding and clearing. A persisted list is loaded as it is (`SettingsStore.LoadTakesListAsIs`), so the model proves the invariant for those operations (`RecentChannels.AddAllKeepsWellFormed`) and not for every state.
