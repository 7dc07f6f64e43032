// Client code that drives the picker through a few complete flows and
// checks, from the contracts alone, what the screen ends up showing.

module Scenarios {
  import opened Themes
  import opened Selection
  import opened Preview
  import opened Picker

  /** A catalog whose only option is the active default theme. */
  method FirstLaunch()
  {
    var a := ThemeOption("A", "Default", true, false, true, [], [], UndefinedColor, UndefinedColor);
    var f := new ThemeFragment("Default");
    f.SetUpOptions(None, Success([a]));
    assert Stops(a, None);
    assert f.selected == Some(a) && f.appliedMark == Some(a);
    assert !f.barVisible && !f.loadingShown;
    assert f.events == [Fetch(false), LogThemeSelected("A", false)];
  }

  /** A saved identity loses to an option that is active later in the list. */
  method RestoreWithLaterActive()
  {
    var a := ThemeOption("a", "A", false, false, true, [], [], UndefinedColor, UndefinedColor);
    var b := ThemeOption("b", "B", true, false, true, [], [], UndefinedColor, UndefinedColor);
    var f := new ThemeFragment("Default");
    LaterActiveOverridesPersisted();
    f.SetUpOptions(Some("a"), Success([a, b]));
    assert f.selected == Some(b) && f.appliedMark == Some(b);
  }

  /** Choosing an undefined custom theme opens the editor and keeps the selection. */
  method ChooseUndefinedCustom()
  {
    var a := ThemeOption("A", "Default", true, false, true, [], [], UndefinedColor, UndefinedColor);
    var c := ThemeOption("C", "Custom", false, true, false, [], [], UndefinedColor, UndefinedColor);
    var f := new ThemeFragment("Default");
    f.SetUpOptions(None, Success([a, c]));
    assert Stops(a, None);
    assert f.selected == Some(a);
    var before := f.events;
    f.OnSelect(c);
    assert f.selected == Some(a);
    assert f.events == before + [NavigateToCustomTheme("C")];
  }

  /** The apply button disables the bar until the theme manager answers. */
  method ApplyRoundTrip(succeeded: bool)
  {
    var f := new ThemeFragment("Default");
    f.OnApplyClicked();
    assert !f.barEnabled;
    f.OnApplyFinished(succeeded);
    assert f.barEnabled && !f.barVisible;
    assert f.events == [Apply(None), if succeeded then ShowAppliedMessage else ShowApplyErrorMessage];
  }

  /** Resume and pause leave no ticker registered. */
  method ResumePause(home: WallpaperInfo, now: Time)
  {
    var f := new ThemeFragment("Default");
    f.OnResume(home, now);
    assert f.tickerRegistered;
    f.OnPause(true);
    assert !f.tickerRegistered;
  }

  /** A deleted theme whose re-fetch fails leaves no selection and the old preview up. */
  method DeletedThenFetchFails()
  {
    var c := ThemeOption("C", "Custom", true, true, true, [], [], UndefinedColor, UndefinedColor);
    var f := new ThemeFragment("Default");
    f.SetUpOptions(None, Success([c]));
    assert Stops(c, None);
    var shown := f.adapter;
    f.OnActivityResult(CustomThemeRequest, ThemeDeleted, Failure(FetchFailed));
    assert f.selected == None && f.adapter == shown && f.appliedMark == Some(c);
  }

  /** Resuming keeps the cover's layout listener: nothing re-arms its decode. */
  method ResumeKeepsCoverListener(home: WallpaperInfo, now: Time)
  {
    var a := ThemeOption("A", "Default", true, false, true, [], [], UndefinedColor, UndefinedColor);
    var f := new ThemeFragment("Default");
    f.SetUpOptions(None, Success([a]));
    assert Stops(a, None);
    var l := f.adapter.coverListener;
    f.OnResume(home, now);
    assert f.adapter.coverListener == l;
  }
}
