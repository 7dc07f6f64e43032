# Theme picker selection and preview, modelled in Dafny

This project models the core of the theme picker screen of an Android
customization app (`ThemeFragment`). The screen lists theme bundles. It
decides which bundle is selected when the catalog arrives, and which one
carries the "applied" checkmark. It builds a pager of preview pages for the
selection. It routes the results of the custom-theme editor and of the full
preview, and runs the apply button's protocol. It registers and unregisters
a clock ticker on resume and pause.

Modules, one per part of the screen:

- `Themes` (`themes.dfy`): the theme option record and opaque handles.
- `Selection` (`selection.dfy`): the two selection loops, described by
  specification functions and lemmas. Also the default-title search, the
  checkmark rule and the save rule.
- `Preview` (`preview.dfy`): the pager adapter as a class. It covers page
  composition against a declarative inclusion table, the rebind and clock
  broadcasts, the one-shot layout listener, and the icons the colour page's
  tiles read.
- `Picker` (`picker.dfy`): the screen as a class. Its fields are the
  selection, the checkmark, the bottom bar, the ticker, the
  loading and error views, and a log of outward events (fetches,
  navigations, apply requests, messages).
- `Scenarios` (`scenarios.dfy`): client flows checked from the contracts
  alone.

Two facts about the code shape the selection rules:

- The persisted match does not stop the initial loop; only an active
  option that is not the persisted one breaks it. So an active option
  later in the list overrides the persisted one
  (`Selection.LaterActiveOverridesPersisted`,
  `Scenarios.RestoreWithLaterActive`), and the persisted choice survives
  only when no other option is active (`Selection.RestoreRoundTrip`).
- The save test is `isActive`: the identity is written when the
  selection is not the active theme (`Selection.SavedState`).

There is no generation counter against stale decode results, in the code
or in the model.

## Model

| member | source | states |
|---|---|---|
| Selection.FirstStop | src/com/android/customization/picker/theme/ThemeFragment.java:347-355 | the index where the initial loop breaks: an active option not named by the persisted identity, with no such option before it; none exactly when no option qualifies |
| Selection.LastMatch | src/com/android/customization/picker/theme/ThemeFragment.java:348-350 | the last option the persisted identity names, with no match after it; none exactly when nothing matches |
| Selection.InitialChoice | src/com/android/customization/picker/theme/ThemeFragment.java:345-355 | the selection field after the loop is either what it held before or an option the loop matched: active and not persisted, or named by the persisted identity |
| Selection.ScanInitial | src/com/android/customization/picker/theme/ThemeFragment.java:345-355 | the loop (match without break, break on the first other active option) leaves exactly InitialChoice in the selection field |
| Selection.ScanReload | src/com/android/customization/picker/theme/ThemeFragment.java:381-386 | the reload loop (active test only, break) gives the initial scan's result with no persisted identity |
| Selection.InitialChoiceCases | src/com/android/customization/picker/theme/ThemeFragment.java:347-355 | the first active non-persisted option wins wherever the persisted match stands; otherwise the last persisted match; otherwise the field is unchanged |
| Selection.ChoiceWithoutPersisted | src/com/android/customization/picker/theme/ThemeFragment.java:381-386 | with no persisted identity the result is the first active option, and the field is unchanged when none is active |
| Selection.FindDefault | src/com/android/customization/picker/theme/ThemeFragment.java:401-410 | returns an option with the default title, none of the options before it has that title, and it returns null exactly when no option has it |
| Selection.Resolve | src/com/android/customization/picker/theme/ThemeFragment.java:356-362 | a non-null scan result is kept and marked applied; a null one becomes the default-titled option and is not marked |
| Selection.MarkedExactlyWhenMatched | src/com/android/customization/picker/theme/ThemeFragment.java:356-362 | from an empty field, the checkmark is set iff the loop matched an option (active or persisted), never for the default fallback |
| Selection.FallbackToDefault | src/com/android/customization/picker/theme/ThemeFragment.java:387-393 | with no active option and an empty field, the selection is the default-titled option (or none) and unmarked |
| Selection.SavedState | src/com/android/customization/picker/theme/ThemeFragment.java:250-252 | an identity is written iff the selection is non-null and not active, and it is the selection's identity |
| Selection.RestoreRoundTrip | src/com/android/customization/picker/theme/ThemeFragment.java:345-355 | a saved selection is restored by the initial scan when the ids are unique and no other option is active |
| Selection.LaterActiveOverridesPersisted | src/com/android/customization/picker/theme/ThemeFragment.java:347-355 | for [a inactive, b active] with persisted "a", the scan yields b |
| Selection.OverrideWallpaper | src/com/android/customization/picker/theme/ThemeFragment.java:329-333 | the override is the home wallpaper when the device wallpaper is used or the option is custom, and no override otherwise |
| Preview.Included | src/com/android/customization/picker/theme/ThemeFragment.java:491-560 | the inclusion table: cover and font always; icon page at 6 or more icons; colour page when both accents differ from -1; shape page when there are shape icons (no contract; its properties are in SelectMembers and PageKindsFacts) |
| Preview.Select | src/com/android/customization/picker/theme/ThemeFragment.java:473-574 | keeps at most the kinds it is given, and only kinds the inclusion table admits |
| Preview.PageKinds | src/com/android/customization/picker/theme/ThemeFragment.java:473-574 | at most five kinds, each admitted by the inclusion table; PageKindsFacts and PageKindsDetermined pin the list down |
| Preview.Rebound | src/com/android/customization/picker/theme/ThemeFragment.java:577-583 | the forced rebind keeps every page's kind, in place |
| Preview.Tick | src/com/android/customization/picker/theme/ThemeFragment.java:585-591 | a tick changes only the clock reading of a page, never its kind or its rebind count |
| Preview.Ticked | src/com/android/customization/picker/theme/ThemeFragment.java:585-591 | a tick over the pages keeps every page's kind, in place |
| Preview.SelectMembers | src/com/android/customization/picker/theme/ThemeFragment.java:491-560 | a page kind is composed iff it is in the page order and the inclusion table admits it |
| Preview.SelectInOrder | src/com/android/customization/picker/theme/ThemeFragment.java:473-574 | composition keeps the page order of the kinds it keeps |
| Preview.PageKindsUnfolded | src/com/android/customization/picker/theme/ThemeFragment.java:473-574 | the composed kinds are cover, font, then icon, colour, shape each when its condition holds |
| Preview.PageKindsFacts | src/com/android/customization/picker/theme/ThemeFragment.java:473-574 | cover and font come first; an icon page iff at least 6 icons; a colour page iff both accents differ from -1; a shape page iff shape icons exist; ordered; 2 to 5 pages |
| Preview.PageKindsDetermined | src/com/android/customization/picker/theme/ThemeFragment.java:473-574 | any ordered list of exactly the included kinds is the composed page list |
| Preview.ThemePreviewAdapter.constructor | src/com/android/customization/picker/theme/ThemeFragment.java:459-575 | builds fresh pages of exactly the composed kinds; the cover scrim exists iff the theme is custom; the cover listener is translucent and registered |
| Preview.ThemePreviewAdapter.AddPage | src/com/android/customization/picker/theme/ThemeFragment.java:473-478 | appends one page and changes nothing else |
| Preview.ThemePreviewAdapter.SetWallpaperAsset | src/com/android/customization/picker/theme/ThemeFragment.java:593-595 | replaces the asset the cover listener reads, pages untouched |
| Preview.ThemePreviewAdapter.RebindWallpaperIfAvailable | src/com/android/customization/picker/theme/ThemeFragment.java:577-583 | every wallpaper page gets one forced rebind, every other page is unchanged, the page kinds are kept |
| Preview.ThemePreviewAdapter.UpdateTime | src/com/android/customization/picker/theme/ThemeFragment.java:585-591 | every time-container page shows the tick's time, every other page is unchanged |
| Preview.TickedIdempotent | src/com/android/customization/picker/theme/ThemeFragment.java:585-591 | a second tick at the same time changes no page |
| Preview.WallpaperPreviewLayoutListener.constructor | src/com/android/customization/picker/theme/ThemeFragment.java:606-613 | records its asset provider, scrim and translucency; starts registered with no decode asked |
| Preview.WallpaperPreviewLayoutListener.OnLayoutChange | src/com/android/customization/picker/theme/ThemeFragment.java:616-631 | a decode of the provider's current asset is asked only for positive width and height, and the listener unregisters exactly then, so it asks at most once |
| Preview.ColorTileIcons | src/com/android/customization/picker/theme/ThemeFragment.java:543-556 | at most 3 tiles; tile i shows icon 0, 1 or 3 and only when that icon exists; binding stops at the first tile whose icon is missing |
| Preview.BindColorTilesAsWritten | src/com/android/customization/picker/theme/ThemeFragment.java:543-556 | the loop as written fails with an out-of-bounds read exactly when there are 3 icons, and otherwise binds ColorTileIcons |
| Preview.BindColorTiles | src/com/android/customization/picker/theme/ThemeFragment.java:543-556 | the loop guarded on the icon it reads binds ColorTileIcons, icons 0, 1 and 3 when there are more than 3 |
| Picker.ThemeFragment.constructor | src/com/android/customization/picker/theme/ThemeFragment.java:183-190 | no selection, no adapter, bar hidden and enabled, no ticker, empty event log |
| Picker.ThemeFragment.OnSelect | src/com/android/customization/picker/theme/ThemeFragment.java:323-343 | an undefined custom option only logs a navigation to the editor and leaves selection, adapter and bar alone; any other option becomes the selection with the home-wallpaper override, a fresh adapter for it (edit action iff custom) and a shown bar; loading is hidden either way |
| Picker.ThemeFragment.OnOptionsLoaded | src/com/android/customization/picker/theme/ThemeFragment.java:321-367 | the new selector's checkmark, the selection and the listener's effect follow Resolve of the initial scan, and the bar ends hidden |
| Picker.ThemeFragment.SetUpOptions | src/com/android/customization/picker/theme/ThemeFragment.java:316-376 | one non-forced fetch; on error the error view shows and nothing else changes; on success as OnOptionsLoaded |
| Picker.ThemeFragment.OnOptionsReloaded | src/com/android/customization/picker/theme/ThemeFragment.java:379-397 | the reset options, then selection, checkmark and listener effect follow Resolve of the reload scan (the checkmark is kept when nothing matches); the bar ends hidden |
| Picker.ThemeFragment.ReloadOptions | src/com/android/customization/picker/theme/ThemeFragment.java:378-399 | one forced fetch; a failed fetch changes nothing else; a successful one continues as OnOptionsReloaded |
| Picker.ThemeFragment.ApplyTheme | src/com/android/customization/picker/theme/ThemeFragment.java:200-201 | asks the theme manager to apply the selection and changes nothing else |
| Picker.ThemeFragment.OnApplyClicked | src/com/android/customization/picker/theme/ThemeFragment.java:186-189 | disables the bar, then asks for the apply |
| Picker.ThemeFragment.OnApplyFinished | src/com/android/customization/picker/theme/ThemeFragment.java:202-220 | success and error both leave the bar enabled and hidden, with a success or error message |
| Picker.ThemeFragment.OnActivityResult | src/com/android/customization/picker/theme/ThemeFragment.java:256-277 | editor "deleted" clears the selection and reloads (a failed reload leaves the selection empty and the old preview up); "applied" finishes; any other code re-selects the selection with the bar hidden, or reloads when there is none; full-preview OK applies without touching the bar; other requests change nothing |
| Picker.ThemeFragment.OnEditClicked | src/com/android/customization/picker/theme/ThemeFragment.java:299-303 | navigates to the editor iff the selection is custom |
| Picker.ThemeFragment.ReloadWallpaper | src/com/android/customization/picker/theme/ThemeFragment.java:279-290 | records the home wallpaper and its thumbnail; a preview is given the thumbnail and rebinds its wallpaper pages only when a selection exists; the cover listener is kept |
| Picker.ThemeFragment.UpdateTime | src/com/android/customization/picker/theme/ThemeFragment.java:233-237 | forwards the tick to the preview when there is one; pages other than time containers and the cover listener are kept |
| Picker.ThemeFragment.OnResume | src/com/android/customization/picker/theme/ThemeFragment.java:224-231 | registers the ticker, reloads the wallpaper (rebinding as above), then shows the current time on the preview; the cover listener is kept |
| Picker.ThemeFragment.OnPause | src/com/android/customization/picker/theme/ThemeFragment.java:240-245 | unregisters the ticker when the screen has a context, and changes nothing else |
| Picker.ThemeFragment.OnSaveInstanceState | src/com/android/customization/picker/theme/ThemeFragment.java:248-253 | writes SavedState of the selection: present iff the selection is non-null and not active |

## Left out

- The new-preview branches (`USE_NEW_PREVIEW`) are dead, because the flag is the constant `false`. `showFullPreview` is reachable only from them, so the model starts no full preview; it still routes a full-preview result.
- View calls are not modelled: finding views, visibility, typefaces, tints, drawable cloning, and the font, icon and shape pages' bind bodies. They are widget calls. The colour tiles' index reads are kept.
- Toasts and the theme-selected log are modelled as events in the screen's log. Error logging is left out.
- Catalog fetch, wallpaper lookup and apply are asynchronous. Each is modelled as a call that delivers its result: a fetch outcome parameter (success with the catalog, or failure), a home-wallpaper parameter, and `OnApplyFinished`.
- Bitmap work is left out: decoding, centre cropping, layer drawables, alpha, and the contrast hint with its hardware-bitmap copy. These are image numerics in library code. The listener records a decode request instead. The contrast-hint branch cannot run here, because the only listener is built translucent.
- `ThemeCoverPage`, `ThemePreviewPage`, `BasePreviewAdapter`, `TimeTicker` and `OptionSelectorController` are not part of this model. The model assumes the following about them:
  - the cover page is the only page that contains the wallpaper and the only time container;
  - `addPage` appends;
  - `setSelectedOption` runs the listener, and does nothing for null;
  - `resetOptions` keeps the checkmark;
  - the cover registers its layout listener when built;
  - a forced rebind (`bindBody(true)`) is recorded only as a count on the page. It does not re-register the cover's layout listener, so once that listener has seen a laid-out size, a new thumbnail handed over by a wallpaper reload is not decoded in the model. What the real cover page does on a forced rebind is not part of this model.
- `isActive` asks the theme manager each time in the program. The model keeps it as a field of the fetched snapshot.
- `setOverrideThemeWallpaper` updates the theme object itself. The model keeps the override of the selected theme in a field of the screen.
- Picker.ThemeFragment.OnPause: unregistering a ticker that is not registered would throw in the platform. The model does not model that failure.

## Findings

| source | as written | input that shows it | evidently intended | confidence | as-written member | corrected member |
|---|---|---|---|---|---|---|
| src/com/android/customization/picker/theme/ThemeFragment.java:543-545 | the colour-tile loop stops at `i < icons.size()`, but tile i reads `icons[mColorTileIconIds[i][1]]`, and those positions are 0, 1 and 3 | an option with both accents defined and exactly 3 icons: tile 2 reads icon 3 | bind a tile only when the icon it reads exists | not executed; the read past the end follows from the code, the intent is inferred | Preview.BindColorTilesAsWritten | Preview.BindColorTiles |
