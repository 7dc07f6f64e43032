// The theme picker screen: its selection state, the bottom action bar, the
// clock ticker registration, and how it reacts to a catalog arriving, a
// user choice, the return from a sub-screen, the apply button and the
// resume/pause lifecycle. Catalog fetches, the wallpaper lookup and the
// apply call are asynchronous in the program; here each is a call that
// delivers its result as a parameter.

module Picker {
  import opened Themes
  import opened Selection
  import opened Preview

  /** What the screen does outside its own fields, in the order it does it. */
  datatype Event =
    | Fetch(forceReload: bool)                 // a catalog fetch request
    | NavigateToCustomTheme(themeId: string)   // opens the custom theme editor
    | Finish                                   // finishes the hosting activity
    | Apply(theme: Option<ThemeOption>)        // hands the selection to the theme manager
    | LogThemeSelected(themeId: string, custom: bool)
    | ShowAppliedMessage
    | ShowApplyErrorMessage

  /** The sub-screens whose results come back to the picker. */
  datatype RequestCode = CustomThemeRequest | FullPreviewRequest | OtherRequest

  /** The result codes those sub-screens return. */
  datatype ResultCode = ThemeDeleted | ThemeApplied | ResultOk | OtherResult

  class ThemeFragment {
    /** Whether previews use the device's home wallpaper; set once, never reassigned. */
    const useMyWallpaper: bool := true
    /** The title of the default theme, from the app's resources. */
    const defaultTitle: string

    /** The option list held by the option selector. */
    var options: seq<ThemeOption>
    /** The selected theme. */
    var selected: Option<ThemeOption>
    /** The option the selector shows the applied checkmark on. */
    var appliedMark: Option<ThemeOption>
    /** The wallpaper override last set on the selected theme. */
    var selectedOverride: Option<WallpaperInfo>
    var homeWallpaper: Option<WallpaperInfo>
    /** The thumbnail asset of the home wallpaper. */
    var thumbAsset: Option<Asset>
    var adapter: ThemePreviewAdapter?
    var barVisible: bool
    var barEnabled: bool
    var tickerRegistered: bool
    var loadingShown: bool
    var errorShown: bool
    var events: seq<Event>

    ghost predicate Valid()
      reads this, adapter
    {
      adapter != null ==> adapter.Valid()
    }

    /** The preview shows `o`: it is the selection and a fresh adapter was built for it. */
    ghost predicate Shows(o: ThemeOption)
      reads this, adapter
    {
      && selected == Some(o)
      && selectedOverride == OverrideWallpaper(useMyWallpaper, o.isCustom, homeWallpaper)
      && adapter != null
      && adapter.theme == o
      && adapter.coverScrim == o.isCustom
      && adapter.editListener == o.isCustom
      && adapter.wallpaperAsset == thumbAsset
      && adapter.pages == Unbound(PageKinds(o))
    }

    /**
     * The selection listener has handled `o`, starting from the given
     * selection, adapter, override and event log: an undefined custom theme
     * only opens the editor; any other option becomes the shown selection.
     */
    ghost predicate Listened(o: ThemeOption, sel0: Option<ThemeOption>, adapter0: ThemePreviewAdapter?,
                             override0: Option<WallpaperInfo>, events0: seq<Event>)
      reads this, adapter
    {
      if IsUndefinedCustom(o) then
        && selected == sel0
        && adapter == adapter0
        && selectedOverride == override0
        && events == events0 + [NavigateToCustomTheme(o.id)]
      else
        && Shows(o)
        && events == events0 + [LogThemeSelected(o.id, o.isCustom)]
    }

    /**
     * The code after a scan has run with outcome `r`: the checkmark, the
     * programmatic selection (which runs the listener) and the hidden bar.
     */
    ghost predicate Resolved(r: Resolution, mark0: Option<ThemeOption>, adapter0: ThemePreviewAdapter?,
                             override0: Option<WallpaperInfo>, events0: seq<Event>)
      reads this, adapter
    {
      && appliedMark == (if r.markApplied then r.selected else mark0)
      && !barVisible
      && match r.selected
         case None =>
           selected == None && adapter == adapter0 && selectedOverride == override0 && events == events0
         case Some(o) =>
           Listened(o, r.selected, adapter0, override0, events0)
    }

    /** The screen once attached, its views created and its action bar ready. */
    constructor (defaultTitle: string)
      ensures Valid()
      ensures this.defaultTitle == defaultTitle
      ensures options == [] && selected == None && appliedMark == None && adapter == null
      ensures selectedOverride == None && homeWallpaper == None && thumbAsset == None
      ensures !barVisible && barEnabled && !tickerRegistered && !loadingShown && !errorShown
      ensures events == []
    {
      this.defaultTitle := defaultTitle;
      options := [];
      selected := None;
      appliedMark := None;
      selectedOverride := None;
      homeWallpaper := None;
      thumbAsset := None;
      adapter := null;
      barVisible := false;
      barEnabled := true;
      tickerRegistered := false;
      loadingShown := false;
      errorShown := false;
      events := [];
    }

    /** The selection listener, run for a user choice and for every programmatic selection. */
    method OnSelect(o: ThemeOption)
      requires Valid()
      modifies this
      ensures Valid()
      ensures Listened(o, old(selected), old(adapter), old(selectedOverride), old(events))
      ensures adapter != old(adapter) ==> fresh(adapter) && fresh(adapter.coverListener)
      ensures selectedOverride == old(selectedOverride) || selectedOverride == homeWallpaper
      ensures barVisible == (!IsUndefinedCustom(o) || old(barVisible))
      ensures !loadingShown
      ensures options == old(options) && appliedMark == old(appliedMark)
      ensures homeWallpaper == old(homeWallpaper) && thumbAsset == old(thumbAsset)
      ensures barEnabled == old(barEnabled) && tickerRegistered == old(tickerRegistered) && errorShown == old(errorShown)
    {
      loadingShown := false;
      if o.isCustom && !o.isDefined {
        events := events + [NavigateToCustomTheme(o.id)];
      } else {
        selected := Some(o);
        selectedOverride := OverrideWallpaper(useMyWallpaper, o.isCustom, homeWallpaper);
        events := events + [LogThemeSelected(o.id, o.isCustom)];
        adapter := new ThemePreviewAdapter(o, thumbAsset, o.isCustom);
        barVisible := true;
      }
    }

    /** The catalog arrived for the first time; `previouslySelected` is the identity saved before a restart. */
    method OnOptionsLoaded(catalog: seq<ThemeOption>, previouslySelected: Option<string>)
      requires Valid()
      modifies this
      ensures Valid()
      ensures options == catalog
      ensures Resolved(Resolve(InitialChoice(catalog, previouslySelected, old(selected)), catalog, defaultTitle),
                       None, old(adapter), old(selectedOverride), old(events))
      ensures adapter != old(adapter) ==> fresh(adapter)
      ensures loadingShown == (Resolve(InitialChoice(catalog, previouslySelected, old(selected)), catalog, defaultTitle).selected.None? && old(loadingShown))
      ensures homeWallpaper == old(homeWallpaper) && thumbAsset == old(thumbAsset)
      ensures barEnabled == old(barEnabled) && tickerRegistered == old(tickerRegistered) && errorShown == old(errorShown)
    {
      options := catalog;
      // The option selector is new, so nothing carries the checkmark yet.
      appliedMark := None;
      ghost var r := Resolve(InitialChoice(catalog, previouslySelected, selected), catalog, defaultTitle);
      var scanned := ScanInitial(catalog, previouslySelected, selected);
      selected := scanned;
      if selected == None {
        selected := FindDefault(catalog, defaultTitle);
      } else {
        appliedMark := selected;
      }
      assert selected == r.selected && appliedMark == (if r.markApplied then r.selected else None);
      if selected.Some? {
        OnSelect(selected.value);
      }
      barVisible := false;
    }

    /** Starts the screen: a non-forced catalog fetch whose outcome is `fetched`. */
    method SetUpOptions(previouslySelected: Option<string>, fetched: Result<seq<ThemeOption>>)
      requires Valid()
      modifies this
      ensures Valid()
      ensures fetched.Failure? ==>
                && errorShown && !loadingShown
                && events == old(events) + [Fetch(false)]
                && options == old(options) && selected == old(selected) && appliedMark == old(appliedMark)
                && adapter == old(adapter) && selectedOverride == old(selectedOverride) && barVisible == old(barVisible)
      ensures fetched.Success? ==>
                && !errorShown
                && options == fetched.value
                && Resolved(Resolve(InitialChoice(fetched.value, previouslySelected, old(selected)), fetched.value, defaultTitle),
                            None, old(adapter), old(selectedOverride), old(events) + [Fetch(false)])
                && loadingShown == Resolve(InitialChoice(fetched.value, previouslySelected, old(selected)), fetched.value, defaultTitle).selected.None?
      ensures adapter != old(adapter) ==> fresh(adapter)
      ensures homeWallpaper == old(homeWallpaper) && thumbAsset == old(thumbAsset)
      ensures barEnabled == old(barEnabled) && tickerRegistered == old(tickerRegistered)
    {
      errorShown := false;
      loadingShown := true;
      events := events + [Fetch(false)];
      match fetched
      case Failure(_) =>
        loadingShown := false;
        errorShown := true;
      case Success(catalog) =>
        OnOptionsLoaded(catalog, previouslySelected);
    }

    /** The catalog arrived for a forced re-fetch. */
    method OnOptionsReloaded(catalog: seq<ThemeOption>)
      requires Valid()
      modifies this
      ensures Valid()
      ensures options == catalog
      ensures Resolved(Resolve(InitialChoice(catalog, None, old(selected)), catalog, defaultTitle),
                       old(appliedMark), old(adapter), old(selectedOverride), old(events))
      ensures adapter != old(adapter) ==> fresh(adapter)
      ensures loadingShown == (Resolve(InitialChoice(catalog, None, old(selected)), catalog, defaultTitle).selected.None? && old(loadingShown))
      ensures homeWallpaper == old(homeWallpaper) && thumbAsset == old(thumbAsset)
      ensures barEnabled == old(barEnabled) && tickerRegistered == old(tickerRegistered) && errorShown == old(errorShown)
    {
      options := catalog;
      ghost var r := Resolve(InitialChoice(catalog, None, selected), catalog, defaultTitle);
      ghost var mark0 := appliedMark;
      var scanned := ScanReload(catalog, selected);
      selected := scanned;
      if selected == None {
        selected := FindDefault(catalog, defaultTitle);
      } else {
        appliedMark := selected;
      }
      assert selected == r.selected && appliedMark == (if r.markApplied then r.selected else mark0);
      if selected.Some? {
        OnSelect(selected.value);
      }
      barVisible := false;
    }

    /**
     * A forced re-fetch of the catalog, whose outcome is `fetched`. Only a
     * successful fetch is handled: after a failed one the screen is as it
     * was, apart from the request.
     */
    method ReloadOptions(fetched: Result<seq<ThemeOption>>)
      requires Valid()
      modifies this
      ensures Valid()
      ensures fetched.Failure? ==>
                && events == old(events) + [Fetch(true)]
                && options == old(options) && selected == old(selected) && appliedMark == old(appliedMark)
                && adapter == old(adapter) && selectedOverride == old(selectedOverride) && barVisible == old(barVisible)
                && loadingShown == old(loadingShown)
      ensures fetched.Success? ==>
                && options == fetched.value
                && Resolved(Resolve(InitialChoice(fetched.value, None, old(selected)), fetched.value, defaultTitle),
                            old(appliedMark), old(adapter), old(selectedOverride), old(events) + [Fetch(true)])
                && loadingShown == (Resolve(InitialChoice(fetched.value, None, old(selected)), fetched.value, defaultTitle).selected.None? && old(loadingShown))
      ensures adapter != old(adapter) ==> fresh(adapter)
      ensures homeWallpaper == old(homeWallpaper) && thumbAsset == old(thumbAsset)
      ensures barEnabled == old(barEnabled) && tickerRegistered == old(tickerRegistered) && errorShown == old(errorShown)
    {
      events := events + [Fetch(true)];
      match fetched
      case Failure(_) =>
      case Success(catalog) =>
        OnOptionsReloaded(catalog);
    }

    /** Hands the selection to the theme manager. */
    method ApplyTheme()
      modifies this
      ensures events == old(events) + [Apply(selected)]
      ensures selected == old(selected) && barVisible == old(barVisible) && barEnabled == old(barEnabled)
      ensures options == old(options) && appliedMark == old(appliedMark) && adapter == old(adapter)
      ensures selectedOverride == old(selectedOverride) && homeWallpaper == old(homeWallpaper) && thumbAsset == old(thumbAsset)
      ensures tickerRegistered == old(tickerRegistered) && loadingShown == old(loadingShown) && errorShown == old(errorShown)
    {
      events := events + [Apply(selected)];
    }

    /** The apply button: disables the bar, then applies. */
    method OnApplyClicked()
      modifies this
      ensures !barEnabled
      ensures events == old(events) + [Apply(selected)]
      ensures selected == old(selected) && barVisible == old(barVisible)
      ensures options == old(options) && appliedMark == old(appliedMark) && adapter == old(adapter)
      ensures selectedOverride == old(selectedOverride) && homeWallpaper == old(homeWallpaper) && thumbAsset == old(thumbAsset)
      ensures tickerRegistered == old(tickerRegistered) && loadingShown == old(loadingShown) && errorShown == old(errorShown)
    {
      barEnabled := false;
      ApplyTheme();
    }

    /** The theme manager's answer to an apply: success and error both re-enable and hide the bar. */
    method OnApplyFinished(succeeded: bool)
      modifies this
      ensures barEnabled && !barVisible
      ensures events == old(events) + [if succeeded then ShowAppliedMessage else ShowApplyErrorMessage]
      ensures selected == old(selected)
      ensures options == old(options) && appliedMark == old(appliedMark) && adapter == old(adapter)
      ensures selectedOverride == old(selectedOverride) && homeWallpaper == old(homeWallpaper) && thumbAsset == old(thumbAsset)
      ensures tickerRegistered == old(tickerRegistered) && loadingShown == old(loadingShown) && errorShown == old(errorShown)
    {
      barEnabled := true;
      barVisible := false;
      if succeeded {
        events := events + [ShowAppliedMessage];
      } else {
        events := events + [ShowApplyErrorMessage];
      }
    }

    /**
     * A sub-screen returned. From the custom theme editor: a deleted theme
     * clears the selection and re-fetches, an applied one finishes the
     * flow, anything else re-selects the current theme with the bar hidden
     * (or re-fetches when there is none). From the full preview, OK
     * applies. `fetched` is the outcome a re-fetch would have.
     */
    method OnActivityResult(request: RequestCode, result: ResultCode, fetched: Result<seq<ThemeOption>>)
      requires Valid()
      modifies this
      ensures Valid()
      ensures request == CustomThemeRequest && (result == ThemeDeleted || (result != ThemeApplied && old(selected).None?)) ==>
                && (fetched.Failure? ==>
                      && events == old(events) + [Fetch(true)]
                      && selected == None && options == old(options) && appliedMark == old(appliedMark)
                      && adapter == old(adapter) && selectedOverride == old(selectedOverride) && barVisible == old(barVisible)
                      && loadingShown == old(loadingShown))
                && (fetched.Success? ==>
                      && options == fetched.value
                      && Resolved(Resolve(InitialChoice(fetched.value, None, None), fetched.value, defaultTitle),
                                  old(appliedMark), old(adapter), old(selectedOverride), old(events) + [Fetch(true)])
                      && loadingShown == (Resolve(InitialChoice(fetched.value, None, None), fetched.value, defaultTitle).selected.None? && old(loadingShown)))
      ensures request == CustomThemeRequest && result == ThemeApplied ==>
                && events == old(events) + [Finish]
                && selected == old(selected) && barVisible == old(barVisible) && adapter == old(adapter)
                && options == old(options) && appliedMark == old(appliedMark) && selectedOverride == old(selectedOverride)
                && loadingShown == old(loadingShown)
      ensures request == CustomThemeRequest && result != ThemeDeleted && result != ThemeApplied && old(selected).Some? ==>
                && Listened(old(selected).value, old(selected), old(adapter), old(selectedOverride), old(events))
                && !barVisible && !loadingShown
                && options == old(options) && appliedMark == old(appliedMark)
      ensures request == FullPreviewRequest && result == ResultOk ==>
                && events == old(events) + [Apply(old(selected))]
                && selected == old(selected) && barVisible == old(barVisible) && adapter == old(adapter)
                && options == old(options) && appliedMark == old(appliedMark) && selectedOverride == old(selectedOverride)
                && loadingShown == old(loadingShown)
      ensures request == OtherRequest || (request == FullPreviewRequest && result != ResultOk) ==>
                && events == old(events)
                && selected == old(selected) && barVisible == old(barVisible) && adapter == old(adapter)
                && options == old(options) && appliedMark == old(appliedMark) && selectedOverride == old(selectedOverride)
                && loadingShown == old(loadingShown)
      ensures adapter != old(adapter) ==> fresh(adapter)
      ensures homeWallpaper == old(homeWallpaper) && thumbAsset == old(thumbAsset)
      ensures barEnabled == old(barEnabled) && tickerRegistered == old(tickerRegistered) && errorShown == old(errorShown)
    {
      if request == CustomThemeRequest {
        if result == ThemeDeleted {
          selected := None;
          ReloadOptions(fetched);
        } else if result == ThemeApplied {
          events := events + [Finish];
        } else {
          if selected.Some? {
            OnSelect(selected.value);
            // The selection above showed the bar; this return must not.
            barVisible := false;
          } else {
            ReloadOptions(fetched);
          }
        }
      } else if request == FullPreviewRequest && result == ResultOk {
        ApplyTheme();
      }
    }

    /** The edit action on a custom theme's cover opens the editor for the selection. */
    method OnEditClicked()
      modifies this
      ensures events == old(events) + if selected.Some? && selected.value.isCustom then [NavigateToCustomTheme(selected.value.id)] else []
      ensures selected == old(selected) && barVisible == old(barVisible) && barEnabled == old(barEnabled)
      ensures options == old(options) && appliedMark == old(appliedMark) && adapter == old(adapter)
      ensures selectedOverride == old(selectedOverride) && homeWallpaper == old(homeWallpaper) && thumbAsset == old(thumbAsset)
      ensures tickerRegistered == old(tickerRegistered) && loadingShown == old(loadingShown) && errorShown == old(errorShown)
    {
      if selected.Some? && selected.value.isCustom {
        events := events + [NavigateToCustomTheme(selected.value.id)];
      }
    }

    /** The wallpaper source delivered `home`; a shown preview takes its thumbnail and rebinds. */
    method ReloadWallpaper(home: WallpaperInfo)
      requires Valid()
      modifies this, adapter
      ensures Valid()
      ensures homeWallpaper == Some(home) && thumbAsset == Some(ThumbAsset(home))
      ensures adapter == old(adapter)
      ensures adapter != null ==> adapter.coverListener == old(adapter.coverListener)
      ensures adapter != null && selected.Some? ==>
                adapter.wallpaperAsset == thumbAsset && adapter.pages == Rebound(old(adapter.pages))
      ensures adapter != null && selected.None? ==>
                adapter.wallpaperAsset == old(adapter.wallpaperAsset) && adapter.pages == old(adapter.pages)
      ensures selected == old(selected) && barVisible == old(barVisible) && barEnabled == old(barEnabled)
      ensures options == old(options) && appliedMark == old(appliedMark) && selectedOverride == old(selectedOverride)
      ensures tickerRegistered == old(tickerRegistered) && loadingShown == old(loadingShown) && errorShown == old(errorShown)
      ensures events == old(events)
    {
      homeWallpaper := Some(home);
      thumbAsset := Some(ThumbAsset(home));
      if selected.Some? && adapter != null {
        adapter.SetWallpaperAsset(thumbAsset);
        adapter.RebindWallpaperIfAvailable();
      }
    }

    /** A clock tick, forwarded to the preview when there is one. */
    method UpdateTime(now: Time)
      requires Valid()
      modifies adapter
      ensures Valid()
      ensures adapter != null ==> adapter.pages == Ticked(old(adapter.pages), now) && adapter.wallpaperAsset == old(adapter.wallpaperAsset)
      ensures adapter != null ==> adapter.coverListener == old(adapter.coverListener)
    {
      if adapter != null {
        adapter.UpdateTime(now);
      }
    }

    /** Resume: registers a ticker, reloads the wallpaper and shows the current time. */
    method OnResume(home: WallpaperInfo, now: Time)
      requires Valid()
      modifies this, adapter
      ensures Valid()
      ensures tickerRegistered
      ensures homeWallpaper == Some(home) && thumbAsset == Some(ThumbAsset(home))
      ensures adapter == old(adapter)
      ensures adapter != null ==> adapter.coverListener == old(adapter.coverListener)
      ensures adapter != null && selected.Some? ==>
                adapter.wallpaperAsset == thumbAsset && adapter.pages == Ticked(Rebound(old(adapter.pages)), now)
      ensures adapter != null && selected.None? ==>
                adapter.wallpaperAsset == old(adapter.wallpaperAsset) && adapter.pages == Ticked(old(adapter.pages), now)
      ensures selected == old(selected) && barVisible == old(barVisible) && barEnabled == old(barEnabled)
      ensures options == old(options) && appliedMark == old(appliedMark) && selectedOverride == old(selectedOverride)
      ensures loadingShown == old(loadingShown) && errorShown == old(errorShown)
      ensures events == old(events)
    {
      tickerRegistered := true;
      ReloadWallpaper(home);
      UpdateTime(now);
    }

    /** Pause: unregisters the ticker while the screen still has a context. */
    method OnPause(hasContext: bool)
      modifies this
      ensures tickerRegistered == (old(tickerRegistered) && !hasContext)
      ensures selected == old(selected) && barVisible == old(barVisible) && barEnabled == old(barEnabled)
      ensures options == old(options) && appliedMark == old(appliedMark) && adapter == old(adapter)
      ensures selectedOverride == old(selectedOverride) && homeWallpaper == old(homeWallpaper) && thumbAsset == old(thumbAsset)
      ensures loadingShown == old(loadingShown) && errorShown == old(errorShown)
      ensures events == old(events)
    {
      if hasContext {
        tickerRegistered := false;
      }
    }

    /** The identity written to the saved state, if any. */
    method OnSaveInstanceState() returns (saved: Option<string>)
      ensures saved == SavedState(selected)
      ensures saved.Some? <==> selected.Some? && !selected.value.isActive
    {
      saved := SavedState(selected);
    }
  }
}
