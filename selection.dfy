// Which theme option the picker selects when its catalog arrives: the scan
// over the options against a persisted identity, the default-title fallback
// that follows it, and the rule that decides what is saved across a restart.

module Selection {
  import opened Themes

  /** The persisted identity `p` names option `o`. */
  predicate Matches(o: ThemeOption, p: Option<string>)
  {
    p.Some? && p.value == o.id
  }

  /** The initial scan stops at `o`: it is active and not the persisted option. */
  predicate Stops(o: ThemeOption, p: Option<string>)
  {
    !Matches(o, p) && o.isActive
  }

  /** Index of the first option the initial scan stops at. */
  function FirstStop(options: seq<ThemeOption>, p: Option<string>): (r: Option<nat>)
    ensures r.Some? ==> r.value < |options| && Stops(options[r.value], p)
    ensures r.Some? ==> forall j :: 0 <= j < r.value ==> !Stops(options[j], p)
    ensures r.None? ==> forall j :: 0 <= j < |options| ==> !Stops(options[j], p)
  {
    if options == [] then None
    else if Stops(options[0], p) then Some(0)
    else
      match FirstStop(options[1..], p)
      case None => None
      case Some(k) => Some(k + 1)
  }

  /** Index of the last option the persisted identity names. */
  function LastMatch(options: seq<ThemeOption>, p: Option<string>): (r: Option<nat>)
    ensures r.Some? ==> r.value < |options| && Matches(options[r.value], p)
    ensures r.Some? ==> forall j :: r.value < j < |options| ==> !Matches(options[j], p)
    ensures r.None? ==> forall j :: 0 <= j < |options| ==> !Matches(options[j], p)
  {
    if options == [] then None
    else if Matches(options[|options| - 1], p) then Some(|options| - 1)
    else LastMatch(options[..|options| - 1], p)
  }

  /**
   * What the initial scan leaves in the selection field, which held
   * `current` before: the first active option that is not the persisted
   * one wins wherever the persisted option stands; failing that, the last
   * option the persisted identity names; failing that, `current`.
   */
  function InitialChoice(options: seq<ThemeOption>, p: Option<string>, current: Option<ThemeOption>): (r: Option<ThemeOption>)
    ensures r == current ||
            exists k :: 0 <= k < |options| && r == Some(options[k]) && (Stops(options[k], p) || Matches(options[k], p))
  {
    match FirstStop(options, p)
    case Some(k) => Some(options[k])
    case None =>
      match LastMatch(options, p)
      case Some(k) => Some(options[k])
      case None => current
  }

  /** The initial-selection loop, run over `options` with the selection field holding `current`. */
  method ScanInitial(options: seq<ThemeOption>, persisted: Option<string>, current: Option<ThemeOption>)
    returns (sel: Option<ThemeOption>)
    ensures sel == InitialChoice(options, persisted, current)
  {
    sel := current;
    var i := 0;
    while i < |options|
      invariant 0 <= i <= |options|
      invariant forall j :: 0 <= j < i ==> !Stops(options[j], persisted)
      invariant sel == match LastMatch(options[..i], persisted)
                       case Some(k) => Some(options[k])
                       case None => current
    {
      var theme := options[i];
      assert options[..i + 1][..i] == options[..i];
      if persisted.Some? && persisted.value == theme.id {
        sel := Some(theme);
      } else if theme.isActive {
        sel := Some(theme);
        assert FirstStop(options, persisted) == Some(i);
        break;
      }
      i := i + 1;
    }
    assert i == |options| ==> options[..i] == options;
  }

  /** The reload loop: the same scan with only the active test. */
  method ScanReload(options: seq<ThemeOption>, current: Option<ThemeOption>) returns (sel: Option<ThemeOption>)
    ensures sel == InitialChoice(options, None, current)
  {
    sel := current;
    var i := 0;
    while i < |options|
      invariant 0 <= i <= |options|
      invariant forall j :: 0 <= j < i ==> !options[j].isActive
      invariant sel == current
    {
      var theme := options[i];
      if theme.isActive {
        sel := Some(theme);
        assert FirstStop(options, None) == Some(i);
        break;
      }
      i := i + 1;
    }
  }

  /** The first option carrying the default theme title, if there is one. */
  function FindDefault(options: seq<ThemeOption>, defaultTitle: string): (r: Option<ThemeOption>)
    ensures r.None? <==> forall j :: 0 <= j < |options| ==> options[j].title != defaultTitle
    ensures r.Some? ==> r.value.title == defaultTitle
    ensures r.Some? ==>
              exists k :: 0 <= k < |options| && options[k] == r.value &&
                          forall j :: 0 <= j < k ==> options[j].title != defaultTitle
  {
    if options == [] then None
    else if options[0].title == defaultTitle then Some(options[0])
    else
      var r := FindDefault(options[1..], defaultTitle);
      assert r.Some? ==> exists k :: 0 <= k < |options[1..]| && options[1..][k] == r.value &&
                                       forall j :: 0 <= j < k ==> options[1..][j].title != defaultTitle;
      r
  }

  /**
   * The outcome of the code that follows either scan: the selection, and
   * whether the scanned option also receives the applied checkmark.
   */
  datatype Resolution = Resolution(selected: Option<ThemeOption>, markApplied: bool)

  /**
   * After a scan left `scanned` in the selection field: a non-null
   * selection is kept and marked applied, a null one falls back to the
   * default-titled option without a checkmark.
   */
  function Resolve(scanned: Option<ThemeOption>, options: seq<ThemeOption>, defaultTitle: string): (r: Resolution)
    ensures r.markApplied <==> scanned.Some?
    ensures r.markApplied ==> r.selected == scanned
    ensures !r.markApplied ==> r.selected == FindDefault(options, defaultTitle)
  {
    if scanned.Some? then Resolution(scanned, true)
    else Resolution(FindDefault(options, defaultTitle), false)
  }

  /**
   * The identity written on save: present exactly when there is a
   * selection that is not the active theme, and then it is that
   * selection's identity.
   */
  function SavedState(selected: Option<ThemeOption>): (r: Option<string>)
    ensures r.Some? <==> selected.Some? && !selected.value.isActive
    ensures r.Some? ==> r.value == selected.value.id
  {
    if selected.Some? && !selected.value.isActive then Some(selected.value.id) else None
  }

  /**
   * The wallpaper a newly selected option is told to preview with: the
   * home wallpaper when the picker uses the device wallpaper or the option
   * is custom, no override otherwise.
   */
  function OverrideWallpaper(useMyWallpaper: bool, isCustom: bool, home: Option<WallpaperInfo>): (r: Option<WallpaperInfo>)
    ensures useMyWallpaper || isCustom ==> r == home
    ensures !useMyWallpaper && !isCustom ==> r.None?
  {
    if useMyWallpaper || isCustom then home else None
  }

  // ---------------------------------------------------------------------
  // Properties of the selection rules

  /** The three cases of the initial scan, stated on option positions. */
  lemma InitialChoiceCases(options: seq<ThemeOption>, p: Option<string>, current: Option<ThemeOption>)
    ensures forall k :: 0 <= k < |options| && Stops(options[k], p) && (forall j :: 0 <= j < k ==> !Stops(options[j], p)) ==>
              InitialChoice(options, p, current) == Some(options[k])
    ensures (forall j :: 0 <= j < |options| ==> !Stops(options[j], p)) ==>
              forall k :: 0 <= k < |options| && Matches(options[k], p) && (forall j :: k < j < |options| ==> !Matches(options[j], p)) ==>
                InitialChoice(options, p, current) == Some(options[k])
    ensures (forall j :: 0 <= j < |options| ==> !Stops(options[j], p) && !Matches(options[j], p)) ==>
              InitialChoice(options, p, current) == current
  {
  }

  /**
   * With no persisted identity (and so on every reload) the scan picks the
   * first active option, and leaves the field alone when none is active.
   */
  lemma ChoiceWithoutPersisted(options: seq<ThemeOption>, current: Option<ThemeOption>)
    ensures FirstStop(options, None) == None ==> InitialChoice(options, None, current) == current
    ensures forall k :: 0 <= k < |options| && options[k].isActive && (forall j :: 0 <= j < k ==> !options[j].isActive) ==>
              InitialChoice(options, None, current) == Some(options[k])
  {
  }

  /**
   * With an empty selection field before the scan, the checkmark is set
   * exactly when some option was matched by the scan: an active option or
   * the persisted one. The default fallback never receives it.
   */
  lemma MarkedExactlyWhenMatched(options: seq<ThemeOption>, p: Option<string>, defaultTitle: string)
    ensures Resolve(InitialChoice(options, p, None), options, defaultTitle).markApplied <==>
              exists k :: 0 <= k < |options| && (Stops(options[k], p) || Matches(options[k], p))
  {
  }

  /**
   * When nothing is active, nothing is persisted and the field is empty,
   * the selection is the default-titled option (empty when no option has
   * that title) and it is not marked applied.
   */
  lemma FallbackToDefault(options: seq<ThemeOption>, defaultTitle: string)
    requires forall j :: 0 <= j < |options| ==> !options[j].isActive
    ensures Resolve(InitialChoice(options, None, None), options, defaultTitle) ==
              Resolution(FindDefault(options, defaultTitle), false)
  {
  }

  /**
   * A selection saved on the way out is restored on the way back in when
   * the catalog still holds it and no other option has become active.
   */
  lemma RestoreRoundTrip(options: seq<ThemeOption>, m: nat, current: Option<ThemeOption>)
    requires UniqueIds(options)
    requires m < |options| && !options[m].isActive
    requires forall j :: 0 <= j < |options| && j != m ==> !options[j].isActive
    ensures SavedState(Some(options[m])) == Some(options[m].id)
    ensures InitialChoice(options, SavedState(Some(options[m])), current) == Some(options[m])
  {
  }

  /**
   * The persisted identity does not always win: an active option later
   * in the list overrides it.
   */
  lemma LaterActiveOverridesPersisted()
    ensures var a := ThemeOption("a", "A", false, false, true, [], [], UndefinedColor, UndefinedColor);
            var b := ThemeOption("b", "B", true, false, true, [], [], UndefinedColor, UndefinedColor);
            InitialChoice([a, b], Some("a"), None) == Some(b)
  {
  }
}
