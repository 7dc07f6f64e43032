// Data model of the theme picker: the theme options a catalog fetch
// delivers, and the opaque handles (wallpapers, assets, drawables) that the
// picker passes around without looking inside.

module Themes {

  datatype Option<+T> = None | Some(value: T)

  datatype Result<+T> = Success(value: T) | Failure(error: Error)

  /** The failures the modelled code can run into. */
  datatype Error =
    | FetchFailed          // the catalog fetch reported an error
    | IndexOutOfBounds     // a list was indexed past its end

  /** Opaque handle of a wallpaper as the wallpaper source describes it. */
  type WallpaperInfo = nat

  /** Opaque handle of a drawable (an icon or a shape). */
  type Drawable = nat

  /** A clock reading delivered by the time ticker. */
  type Time = int

  /** The cached thumbnail asset made from a home-screen wallpaper. */
  datatype Asset = ThumbAsset(wallpaper: WallpaperInfo)

  /** The colour value a theme uses for "this accent is not defined". */
  const UndefinedColor: int := -1

  /**
   * One theme bundle of a fetched catalog snapshot.
   *  - id: the serialized packages string; the option's identity and the
   *    token stored across a restart
   *  - isActive: whether the theme manager reports the bundle as applied
   *  - isCustom: the bundle is a user-authored custom theme
   *  - isDefined: a custom theme already has content (only consulted when
   *    isCustom holds)
   *  - icons, shapeAppIcons, colorAccentDark, colorAccentLight: the parts
   *    of the bundle's preview information that decide which preview pages
   *    exist and what they read
   */
  datatype ThemeOption = ThemeOption(
    id: string,
    title: string,
    isActive: bool,
    isCustom: bool,
    isDefined: bool,
    icons: seq<Drawable>,
    shapeAppIcons: seq<Drawable>,
    colorAccentDark: int,
    colorAccentLight: int)

  /** A custom theme that has no content yet: choosing it opens the editor. */
  predicate IsUndefinedCustom(o: ThemeOption)
  {
    o.isCustom && !o.isDefined
  }

  /** No two options of a snapshot share an identity. */
  ghost predicate UniqueIds(options: seq<ThemeOption>)
  {
    forall i, j :: 0 <= i < |options| && 0 <= j < |options| && options[i].id == options[j].id ==> i == j
  }
}
