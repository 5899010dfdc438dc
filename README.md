# SkiHide: the hide/mute controller, in Dafny

SkiHide is a Windows tray utility. It hides the window selected in its list (by hotkey, a mouse side button or the UI) and shows it again later. While any window is hidden it can mute the system audio endpoint. This project models the parts of it that have behaviour worth stating:

- **`toggle_window` of skihide/app.py**, with its mute and restore routines. The application mutes when the first window of a "hidden episode" is hidden. It undoes the mute when the last hidden window is shown, and only if it caused that mute (`muted_by_app`).
- **The earlier `toggle_window` of main.py.** Every hide takes a fresh snapshot of the mute flag and mutes only an unmuted endpoint whose volume is above zero. Every show unmutes, but only when `is_muted` is set and the snapshot says the user had not muted.
- **main.py's other pieces:** `compare_builds` and the hotkey recorder (`on_press`): key names are normalised, modifiers accumulate, and the combination is joined with `+`.
- **Settings code in skihide/app.py:** the memory-cleaning interval (`_mem_clean_interval_ms`), the value and unit normalisation of `apply_settings`, and the autostart command line (`_get_autostart_command`).
- **skihide/i18n.py:** the dotted-key lookup `t`, `detect_system_language`, and the state `set_language` leaves.

## Structure

| file | module | what it holds |
|---|---|---|
| `wrappers.dfy` | `Wrappers` | `Option` |
| `strings.dfy` | `Strings` | ASCII `lower()`, `split`/`join` on one character, and their round trips |
| `ports.dfy` | `Ports` | the call log, which endpoint calls raise (`Faults`), and `Port`, the window and pycaw endpoint as a class |
| `controller.dfy` | `Controller` | specification functions over a `World` value, and the class `SkiHideApp`, whose methods are proved to produce exactly those functions' results |
| `episodes.dfy` | `Episodes`, `Scenarios` | properties of whole sequences of toggles, and the concrete scenarios |
| `legacy.dfy` | `Legacy` | main.py's toggle (function and class `LegacyApp`) and `compare_builds` |
| `hotkey.dfy` | `Hotkey` | key-name normalisation and the class `HotkeyRecorder` |
| `settings.dfy` | `Settings` | interval, normalisation, and the autostart command with its read-back |
| `i18n.dfy` | `I18n` | JSON values, `Lookup`/`Translate`, and the class `Catalog` with `T` as a loop |

**How the endpoint is modelled:**
- The endpoint has a mute flag and a volume scalar (`real`).
- `Port.hasEndpoint` is false when pycaw could not be initialised (`self.volume is None`).
- Which endpoint call raises is an input (`Faults`).
- A call that raises is still recorded in the call log, and it leaves the endpoint unchanged. Every `except` in the source then takes the path it takes in Python.

## Model

| member | source | states |
|---|---|---|
| Ports.Port.constructor | skihide/app.py:67-71 | the endpoint as opened: its mute flag, its volume, and an empty call log |
| Ports.Port.ShowWindow | skihide/app.py:602-609 | one window call is logged; the endpoint is untouched |
| Ports.Port.GetMute | skihide/app.py:945 | the call is logged; the answer is the mute flag, or nothing when it raises |
| Ports.Port.GetMasterVolumeLevelScalar | skihide/app.py:947 | the call is logged; the answer is the volume, or nothing when it raises |
| Ports.Port.SetMute | skihide/app.py:953 | the call is logged; the flag changes exactly when the call does not raise |
| Ports.Port.SetMasterVolumeLevelScalar | skihide/app.py:969 | the call is logged; the volume changes exactly when the call does not raise |
| Controller.MuteIfNeeded | skihide/app.py:935-956 | only endpoint calls are added and the hidden map is kept; with the setting off, no endpoint, or a mute already owned, nothing happens at all |
| Controller.MuteOwnership | skihide/app.py:944-956 | the routine runs exactly when some call is issued; the snapshot is taken when `GetMute` answers and the volume is `None` when its read raises; `SetMute(True)` is issued iff the user had not muted; ownership is taken iff that call succeeded; the endpoint changes only by that mute; it never unmutes and never sets the volume |
| Controller.RestoreIfNeeded | skihide/app.py:958-974 | only endpoint calls are added; without an endpoint or without an owned mute, nothing happens |
| Controller.RestoreContract | skihide/app.py:964-972 | the first call restores the original mute flag; if it raises, ownership and the endpoint stay as they were and nothing else is issued; otherwise a captured volume is reapplied (a raise there is swallowed) and ownership is given up; the endpoint is never read |
| Controller.MapSizes | skihide/app.py:603-613 | the map becomes empty after a removal iff that handle was its only key; it holds exactly one entry after an insert iff it was empty |
| Controller.Toggle | skihide/app.py:596-614 | no selection: nothing happens; otherwise the first call is the show or the hide; a hidden window is removed from the map, any other window is added with its title; strictly inside an episode exactly that one call is issued and the audio state and endpoint are unchanged |
| Controller.ToggleAtBoundary | skihide/app.py:601-614 | when a show empties the map or a hide starts it, the toggle is its window call followed by exactly the restore or the mute routine |
| Controller.SkiHideApp.constructor | skihide/app.py:62-65 | no hidden windows, no ownership, no snapshot |
| Controller.SkiHideApp.MuteSystemIfNeeded | skihide/app.py:935-956 | the new fields, endpoint and call log are `MuteIfNeeded` of the old ones; the setting is unchanged |
| Controller.SkiHideApp.RestoreSystemAudioIfNeeded | skihide/app.py:958-974 | the new state is `RestoreIfNeeded` of the old state |
| Controller.SkiHideApp.ToggleWindow | skihide/app.py:596-614 | the new state is `Toggle` of the old state |
| Episodes.Run | skihide/app.py:596-614 | a sequence of toggles only appends to the call log |
| Episodes.ToggleHiddenFlips | skihide/app.py:601-610 | one toggle flips the membership of the handle it selects and of no other |
| Episodes.RunHidden | skihide/app.py:596-614 | the hidden map after any run depends only on the selections: the audio routines never touch it |
| Episodes.HiddenAfterMembership | skihide/app.py:601-610 | a handle is hidden after the toggles iff it was hidden before, flipped an odd number of times |
| Episodes.RunMembership | skihide/app.py:596-614 | the same for the full controller, with any settings and any raising calls |
| Episodes.EvenTogglesKeepHidden | skihide/app.py:596-614 | toggling every handle an even number of times leaves the same handles hidden |
| Episodes.ToggleSettled | skihide/app.py:596-614 | a fault-free toggle keeps the invariant: the endpoint is as before the episode, except for a mute the application owns, whose snapshot records the pre-episode endpoint; with nothing hidden, nothing is owned |
| Episodes.RunSettled | skihide/app.py:596-614 | any fault-free run keeps that invariant |
| Episodes.EpisodesRestoreDevice | skihide/app.py:958-974 | if no endpoint call raises, then whatever the interleaving and settings, once no window is hidden the endpoint is back to its mute flag and volume from before, and nothing is owned |
| Episodes.HidesThenShowsAreEven | skihide/app.py:596-614 | hiding N distinct handles and showing the same N in any order toggles each handle an even number of times |
| Episodes.HideAllThenShowAll | skihide/app.py:596-614 | with nothing raising, hiding N distinct windows and then showing them all in any order leaves nothing hidden, the endpoint exactly as before, and nothing owned |
| Episodes.UserMuteNeverTouched | skihide/app.py:952-954 | if the user had muted, no `SetMute` is ever issued, the endpoint never changes and no ownership is taken, whatever raises and whatever the settings |
| Episodes.SettingOffNoAudio | skihide/app.py:937-938 | starting with no mute owned by the application and with `mute_after_hide` off throughout, no endpoint call is issued and the endpoint and audio fields are unchanged |
| Episodes.NoEndpointNoAudio | skihide/app.py:939-940 | without an endpoint, no endpoint call is issued by any run |
| Scenarios.TwoWindowEpisodeRestoresAudio | skihide/app.py:596-614 | hide A, hide B, show A, show B on an unmuted endpoint: the exact call list (one mute at the first hide, no endpoint call in the middle, unmute then volume reapplied at the last show), nothing hidden, the endpoint as before |
| Scenarios.MiddleOfEpisode | skihide/app.py:601-613 | a hide and a show while others stay hidden are two window calls and nothing else |
| Scenarios.FirstHideMutes | skihide/app.py:609-614 | the first hide on an unmuted endpoint snapshots, mutes and takes ownership, with exactly four calls |
| Scenarios.LastShowRestores | skihide/app.py:601-607 | the last show unmutes to the original flag and reapplies the saved volume, with exactly three calls |
| Scenarios.FailedMuteIsNotUndone | skihide/app.py:952-956 | a `SetMute(True)` that raises still hides the window and leaves ownership false, so the later show issues no endpoint call |
| Scenarios.FailedRestoreKeepsOwnership | skihide/app.py:964-974 | a `SetMute` that raises during restore keeps ownership; the next first hide then takes no snapshot and mutes nothing |
| Legacy.CompareBuilds | main.py:804-805 | whether the server's build is newer than the running build 26000 (main.py:78); it carries no contract of its own, and Legacy.OffersAreMonotone and Legacy.OfferBoundary pin it down |
| Legacy.OffersAreMonotone | main.py:804-805 | a build at least as new as an offered build is offered too, and one no newer than a refused build is refused |
| Legacy.OfferBoundary | main.py:78 | the running build 26000 is not offered as an update, 26001 is |
| Legacy.AfterShow | main.py:582-588 | `SetMute(False)` is issued iff the setting is on, `is_muted` is set, there is an endpoint and the user had not muted; `is_muted` is cleared and the endpoint unmuted iff that call succeeds; the volume is never touched |
| Legacy.AfterHide | main.py:594-609 | the hidden map is untouched and calls are only appended; with the setting off or no endpoint, nothing happens |
| Legacy.AfterHideContract | main.py:594-609 | every hide overwrites `original_muted_state` once both reads answer; a raising read changes nothing; `SetMute(True)` is issued iff the endpoint is unmuted with a volume above zero; otherwise `is_muted` follows the endpoint; it never unmutes |
| Legacy.LegacyToggle | main.py:571-609 | no selection: nothing; a show removes the window, issues `SW_RESTORE` first and never mutes; a hide adds it, issues `SW_HIDE` first and never unmutes |
| Legacy.TwoHidesLeaveSystemMuted | main.py:582-603 | hide A, hide B, show A, show B on an unmuted endpoint with a volume above zero: nothing is hidden but the endpoint is still muted |
| Legacy.LegacyApp.constructor | main.py:96-108 | `is_muted` starts as the endpoint's flag, read with one `GetMute`; nothing hidden, no snapshot |
| Legacy.LegacyApp.UnmuteAfterShow | main.py:582-588 | the new state is `AfterShow` of the old state |
| Legacy.LegacyApp.MuteAfterHide | main.py:594-609 | the new state is `AfterHide` of the old state |
| Legacy.LegacyApp.ToggleWindow | main.py:571-609 | the new state is `LegacyToggle` of the old state |
| Hotkey.NormalizeKeyName | main.py:458-472 | a modifier iff the name is `windows`, `ctrl`, `alt`, `shift` or `win`, with `windows` read as `win`; any other key keeps its letters up to case; a one-character name or one of `enter`, `tab`, `esc`, `backspace` is kept exactly; a longer name has no upper-case letter left |
| Hotkey.Record | main.py:474-475 | the key is recorded once: it is in the result, the old keys come first, at most one is added, and no key appears twice |
| Hotkey.HotkeyString | main.py:477-478 | the combination begins with the first modifier listed (or the first key when no modifier is held) and ends with the last recorded key; with nothing at all it is empty |
| Hotkey.HotkeyStringParses | main.py:477-478 | provided no modifier or key name contains `+` and there is at least one name, the stored combination splits on `+` back into the modifiers, then the keys |
| Hotkey.HotkeyRecorder.constructor | main.py:85-92 | not recording, no modifiers, no keys, no hotkey |
| Hotkey.HotkeyRecorder.StartRecording | main.py:425-455 | a recording in progress is left alone; otherwise a fresh recording starts with no modifiers and no keys |
| Hotkey.HotkeyRecorder.OnPress | main.py:457-496 | a modifier is added to the set and nothing else changes; any other key is recorded, `hotkey` becomes the joined combination, the modifiers are cleared and recording ends |
| Strings.LowerChar | skihide/i18n.py:19 | `A`..`Z` become the same letter in `a`..`z`; anything else is kept; the result is never upper-case |
| Strings.Lower | skihide/i18n.py:19 | same length, each character lowered |
| Strings.LowerIdempotent | skihide/i18n.py:19 | lowering twice is lowering once |
| Strings.Split | skihide/i18n.py:95 | at least one part, and no part contains the separator |
| Strings.JoinSplit | skihide/i18n.py:95 | joining the parts of a split gives back the string |
| Strings.Join | main.py:478 | joining no parts gives the empty string; otherwise the result begins with the first part and ends with the last |
| Strings.SplitJoin | main.py:478 | splitting a join of separator-free parts gives back those parts |
| Strings.SplitNoSeparator | skihide/i18n.py:95 | a string without the separator splits into itself alone |
| Strings.SplitPrefix | skihide/i18n.py:95 | a separator-free prefix before a separator is the first part |
| I18n.Index | skihide/i18n.py:100 | `value[p]` answers iff the value is a dict holding `p`, and then answers that entry |
| I18n.Lookup | skihide/i18n.py:99-100 | the empty path gives the table itself; a non-empty path finds something only in a dict holding its first segment, and what it finds is the lookup of the rest of the path in that entry |
| I18n.LookupAppend | skihide/i18n.py:99-100 | looking up a path is looking up its first part, then the rest from there |
| I18n.LookupWalk | skihide/i18n.py:98-109 | a lookup succeeds iff every segment in turn names an entry of the dict reached by the segments before it |
| I18n.EmptyTableEchoesKey | skihide/i18n.py:62-63 | after a failed `set_language` the table is empty and `t(key)` returns `key` |
| I18n.Translate | skihide/i18n.py:94-109 | `t(key)` returns the value at the dotted path whenever there is one, and otherwise the key itself; a table that is not a dict returns the key |
| I18n.TranslateDotted | skihide/i18n.py:94-106 | `t("section.name")` returns the entry `name` of the dict `section` |
| I18n.DetectSystemLanguage | skihide/i18n.py:12-29 | missing or empty locale: `en_US`; otherwise `zh_CN` for any locale starting with `zh` in any case, else the lowered locale; never empty |
| I18n.DetectIgnoresCase | skihide/i18n.py:19-26 | the detected language does not depend on the case of the locale |
| I18n.Catalog.constructor | skihide/i18n.py:8-9 | an empty table and `_current_lang` `zh_CN` |
| I18n.Catalog.SetLanguage | skihide/i18n.py:51-63 | a loaded file becomes the table and the new current language; a failure empties the table and leaves the language as it was; `_current_lang` is never written |
| I18n.Catalog.T | skihide/i18n.py:94-109 | the loop returns exactly `Translate`: the value at the dotted path, or the key itself when any step fails |
| Settings.Clamp | skihide/app.py:165 | between 1 and 999, unchanged inside that range, 1 below it, 999 above it |
| Settings.EffectiveValue | skihide/app.py:164 | `value or 30`: a missing value or 0 becomes 30, any other value is kept; the result is never 0 |
| Settings.MemCleanIntervalMs | skihide/app.py:163-169 | a whole number of hours (unit `小时`) or minutes (any other unit), equal to the clamped count with 0 or missing read as 30; between one minute and 999 hours |
| Settings.NormalizeMemClean | skihide/app.py:762-771 | the stored value is in 1..999, 30 when the entry did not parse, the entry itself when already in range; the unit is kept when known, else minutes |
| Settings.NormalizeIsIdempotent | skihide/app.py:762-771 | normalising stored settings again changes nothing |
| Settings.NormalizePreservesInterval | skihide/app.py:163-169 | a non-zero entry gives the same interval before and after storing; an entry of 0 is stored as 1 but would have meant 30 unstored |
| Settings.QuotePath | skihide/app.py:138-140 | the path is kept when it has no space or is already between quotes, and is wrapped in quotes otherwise; a path with a space always comes out between quotes |
| Settings.QuotePathIdempotent | skihide/app.py:138-140 | quoting an already quoted path again changes nothing |
| Settings.AutostartCommand | skihide/app.py:136-145 | the command is the quoted path followed by exactly ` --silent` when silent start is on (the default when unset) and by nothing otherwise |
| Settings.AutostartCommandRoundTrip | skihide/app.py:136-145 | for a path with no quote mark, the command starts with a quote exactly when the path has a space, and the command line reads back as exactly the path, followed by ` --silent` exactly when silent start is on (the default when unset) |
| Settings.AutostartKeepsQuotedPath | skihide/app.py:138-139 | an already quoted path is not quoted again, and the path inside the quotes reads back |

## Left out

- Everything in the UI is left out: Tk widgets, dialogs, the tray icon and theming. The listbox selection enters as `Option<Selection>`.
- Hotkey and mouse hook registration and their threads are left out, as is the serialisation of concurrent `toggle_window` calls. Toggles are modelled one at a time.
- Window enumeration and stale handles are left out. `ShowWindow` is modelled as a call that never raises, because the source does not catch its errors.
- Config loading and saving (`save_config`, JSON files) is left out. So are the update downloader, registry writes (`set_autostart`), privilege elevation and the memory cleaner itself.
- The scheduler in `apply_memory_clean_scheduler` is left out. Only the interval it uses is modelled.
- The user changing the mute flag or volume outside the application during an episode is left out. The endpoint changes only through the modelled calls.
- Strings.Lower: only ASCII `A`..`Z` are lowered. Python's full Unicode `str.lower` is not modelled.
- Legacy.OffersAreMonotone and Legacy.OfferBoundary: `compare_builds` is modelled as taking the build as an integer. The `int()` parse of the update server's string, and its `ValueError`, are not modelled.
- The volume scalar is an unconstrained `real`. Floating-point behaviour is not modelled; the value is only captured, compared with `0.0` and reapplied.
- Logging is left out: the `logger` calls in every branch of both `toggle_window`s and in the `except` clauses of the audio routines have no effect on state.
- `is_muted` in skihide/app.py is set at start-up but never read by the modelled code, so it is not part of `SkiHideApp`.
- `Legacy.LegacyApp.constructor`: an endpoint whose first `GetMute` raises is dropped by the source (`self.volume = None`), so it appears here as a port without an endpoint.
- I18n.Catalog.T: the keyword-argument `str.format` substitution of `t(key, **kwargs)` is not modelled, only `t(key)`.
- `load_languages` and `get_available_languages` only list files on disk, so they are left out. `set_language` receives the decoded file, or `None` when opening or decoding it raised.
- Hotkey.HotkeyRecorder.OnPress: the order of `list(self.modifier_keys)` is given as a parameter, since Python's set order is not specified. Re-registering the hotkey and `save_config` are left out.
- Settings.MemCleanIntervalMs: the stored value enters as an integer, or `None` when the attribute is missing or `None`. A non-numeric value, whose `int()` would raise, is not modelled.

Notable behaviour of the code as written:
- `set_language` writes a global `_current_language`, not the module's `_current_lang`, which stays `zh_CN` (`I18n.Catalog.SetLanguage`).
- `apply_settings` stores an entry of 0 as 1, while `_mem_clean_interval_ms` reads 0 as 30 (`Settings.NormalizePreservesInterval`).
- A `SetMute` that raises while restoring leaves `muted_by_app` set, so a later episode retries the restore (`Scenarios.FailedRestoreKeepsOwnership`).
- After the user had muted, the snapshot gate is `muted_by_app`, so every new episode takes a new snapshot.

## Findings

| source | as written | input that shows it | evidently intended | confidence | as-written member | corrected member |
|---|---|---|---|---|---|---|
| main.py:594-599 | every hide overwrites `original_muted_state` with the current mute flag, including the application's own mute from the previous hide | `mute_after_hide` on, endpoint unmuted at a volume above zero: hide A, hide B, show A, show B | once no window is hidden, the endpoint is unmuted again, as skihide/app.py's toggle (`Controller.Toggle`) does by snapshotting only at the first hide | not executed | Legacy.TwoHidesLeaveSystemMuted | Scenarios.TwoWindowEpisodeRestoresAudio |
