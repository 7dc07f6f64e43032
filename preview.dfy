// The preview pager of the theme picker: which pages are built for an
// option and in what order, the broadcasts that rebind the wallpaper pages
// and advance the clock pages, the one-shot layout listener that asks for
// the cover wallpaper, and the icons the colour page's tiles read.

module Preview {
  import opened Themes

  /** Number of icon slots on the icon page. */
  const IconSlotCount: nat := 6
  /** Number of quick-settings tiles on the colour page. */
  const ColorTileCount: nat := 3
  /** For each colour tile, the position in the option's icon list of the icon it shows. */
  const ColorTileIconIndex: seq<nat> := [0, 1, 3]

  datatype PageKind = Cover | Font | Icon | Color | Shape

  /** Position of each kind in the page order. */
  function Rank(k: PageKind): nat
  {
    match k
    case Cover => 0
    case Font => 1
    case Icon => 2
    case Color => 3
    case Shape => 4
  }

  /** Every kind, in page order. */
  const AllKinds: seq<PageKind> := [Cover, Font, Icon, Color, Shape]

  /** The inclusion table: whether an option's content calls for a page of kind `k`. */
  predicate Included(t: ThemeOption, k: PageKind)
  {
    match k
    case Cover => true
    case Font => true
    case Icon => |t.icons| >= IconSlotCount
    case Color => t.colorAccentDark != UndefinedColor && t.colorAccentLight != UndefinedColor
    case Shape => |t.shapeAppIcons| > 0
  }

  /** The kinds of `ks` that the table includes for `t`, in their order. */
  function Select(t: ThemeOption, ks: seq<PageKind>): (r: seq<PageKind>)
    ensures |r| <= |ks|
    ensures forall i :: 0 <= i < |r| ==> Included(t, r[i])
  {
    if ks == [] then [] else (if Included(t, ks[0]) then [ks[0]] else []) + Select(t, ks[1..])
  }

  /** The page kinds the preview of `t` consists of. */
  function PageKinds(t: ThemeOption): (r: seq<PageKind>)
    ensures |r| <= |AllKinds|
    ensures forall i :: 0 <= i < |r| ==> Included(t, r[i])
  {
    Select(t, AllKinds)
  }

  /** The pages are in strictly increasing page order. */
  predicate InPageOrder(ks: seq<PageKind>)
  {
    forall i, j :: 0 <= i < j < |ks| ==> Rank(ks[i]) < Rank(ks[j])
  }

  /** The cover page is the one whose background is the wallpaper. */
  predicate ContainsWallpaper(k: PageKind)
  {
    k == Cover
  }

  /** The cover page is the one that shows the clock. */
  predicate IsTimeContainer(k: PageKind)
  {
    k == Cover
  }

  /**
   * A preview page: its kind, how many forced rebinds it has received and
   * the clock reading it last displayed.
   */
  datatype Page = Page(kind: PageKind, forcedBinds: nat, shownTime: Option<Time>)

  function Kinds(ps: seq<Page>): seq<PageKind>
  {
    seq(|ps|, i requires 0 <= i < |ps| => ps[i].kind)
  }

  /** Freshly built pages of the given kinds. */
  function Unbound(ks: seq<PageKind>): seq<Page>
  {
    seq(|ks|, i requires 0 <= i < |ks| => Page(ks[i], 0, None))
  }

  lemma UnboundAppend(ks: seq<PageKind>, k: PageKind)
    ensures Unbound(ks + [k]) == Unbound(ks) + [Page(k, 0, None)]
  {
  }

  lemma KindsOfUnbound(ks: seq<PageKind>)
    ensures Kinds(Unbound(ks)) == ks
  {
  }

  /** A page after a forced rebind. */
  function ForceBind(p: Page): Page
  {
    p.(forcedBinds := p.forcedBinds + 1)
  }

  /** The page list after a forced rebind of the wallpaper pages. */
  function Rebound(ps: seq<Page>): (r: seq<Page>)
    ensures Kinds(r) == Kinds(ps)
  {
    seq(|ps|, i requires 0 <= i < |ps| => if ContainsWallpaper(ps[i].kind) then ForceBind(ps[i]) else ps[i])
  }

  /** A page after a clock tick at `now`: only time containers display it. */
  function Tick(p: Page, now: Time): (r: Page)
    ensures r.kind == p.kind && r.forcedBinds == p.forcedBinds
  {
    if IsTimeContainer(p.kind) then p.(shownTime := Some(now)) else p
  }

  /** The page list after a clock tick at `now`. */
  function Ticked(ps: seq<Page>, now: Time): (r: seq<Page>)
    ensures Kinds(r) == Kinds(ps)
  {
    seq(|ps|, i requires 0 <= i < |ps| => Tick(ps[i], now))
  }

  // ---------------------------------------------------------------------
  // Properties of the composition

  /** Selection keeps exactly the kinds the table includes. */
  lemma {:induction false} SelectMembers(t: ThemeOption, ks: seq<PageKind>, k: PageKind)
    ensures k in Select(t, ks) <==> k in ks && Included(t, k)
  {
    if ks != [] {
      SelectMembers(t, ks[1..], k);
      assert ks == [ks[0]] + ks[1..];
    }
  }

  /** Selection from an ordered list is ordered. */
  lemma {:induction false} SelectInOrder(t: ThemeOption, ks: seq<PageKind>)
    requires InPageOrder(ks)
    ensures InPageOrder(Select(t, ks))
  {
    if ks != [] {
      var rest := Select(t, ks[1..]);
      SelectInOrder(t, ks[1..]);
      forall k | k in rest ensures Rank(ks[0]) < Rank(k) {
        SelectMembers(t, ks[1..], k);
      }
    }
  }

  /** The composition written out in the order the pages are added. */
  lemma PageKindsUnfolded(t: ThemeOption)
    ensures PageKinds(t) ==
              [Cover, Font]
              + (if Included(t, Icon) then [Icon] else [])
              + (if Included(t, Color) then [Color] else [])
              + (if Included(t, Shape) then [Shape] else [])
  {
    var icon := if Included(t, Icon) then [Icon] else [];
    var color := if Included(t, Color) then [Color] else [];
    var shape := if Included(t, Shape) then [Shape] else [];
    assert [Shape][1..] == [];
    assert Select(t, [Shape]) == shape;
    assert [Color, Shape][1..] == [Shape];
    assert Select(t, [Color, Shape]) == color + shape;
    assert [Icon, Color, Shape][1..] == [Color, Shape];
    assert Select(t, [Icon, Color, Shape]) == icon + (color + shape);
    assert [Font, Icon, Color, Shape][1..] == [Icon, Color, Shape];
    assert Select(t, [Font, Icon, Color, Shape]) == [Font] + (icon + (color + shape));
    assert AllKinds[1..] == [Font, Icon, Color, Shape];
    assert PageKinds(t) == [Cover] + ([Font] + (icon + (color + shape)));
  }

  /**
   * The preview always opens with the cover and the font page, holds an
   * icon page exactly when the option has at least as many icons as there
   * are icon slots, a colour page exactly when both accents are defined and
   * a shape page exactly when there are shape icons, keeps the page order,
   * and so holds between two and five pages.
   */
  lemma PageKindsFacts(t: ThemeOption)
    ensures 2 <= |PageKinds(t)| <= 5
    ensures PageKinds(t)[0] == Cover && PageKinds(t)[1] == Font
    ensures Icon in PageKinds(t) <==> |t.icons| >= IconSlotCount
    ensures Color in PageKinds(t) <==> t.colorAccentDark != UndefinedColor && t.colorAccentLight != UndefinedColor
    ensures Shape in PageKinds(t) <==> |t.shapeAppIcons| > 0
    ensures InPageOrder(PageKinds(t))
  {
    PageKindsUnfolded(t);
    SelectMembers(t, AllKinds, Icon);
    SelectMembers(t, AllKinds, Color);
    SelectMembers(t, AllKinds, Shape);
    SelectInOrder(t, AllKinds);
  }

  /** Two ordered page lists with the same kinds are the same list. */
  lemma {:induction false} OrderedListsAgree(a: seq<PageKind>, b: seq<PageKind>)
    requires InPageOrder(a) && InPageOrder(b)
    requires forall k :: k in a <==> k in b
    ensures a == b
  {
    assert a != [] ==> a[0] in b;
    assert b != [] ==> b[0] in a;
    if a != [] && b != [] {
      assert Rank(a[0]) <= Rank(b[0]) && Rank(b[0]) <= Rank(a[0]);
      assert a[0] == b[0];
      forall k ensures k in a[1..] <==> k in b[1..] {
        assert k in a[1..] <==> k in a && k != a[0];
        assert k in b[1..] <==> k in b && k != b[0];
      }
      OrderedListsAgree(a[1..], b[1..]);
      assert a == [a[0]] + a[1..] && b == [b[0]] + b[1..];
    }
  }

  /**
   * The page list is determined by the inclusion table and the page order:
   * any ordered list of exactly the included kinds is the composition.
   */
  lemma PageKindsDetermined(t: ThemeOption, ks: seq<PageKind>)
    requires InPageOrder(ks)
    requires forall k :: k in ks <==> Included(t, k)
    ensures ks == PageKinds(t)
  {
    PageKindsFacts(t);
    forall k ensures k in PageKinds(t) <==> Included(t, k) {
      SelectMembers(t, AllKinds, k);
    }
    OrderedListsAgree(ks, PageKinds(t));
  }

  /** A second clock tick at the same time changes nothing. */
  lemma TickedIdempotent(ps: seq<Page>, now: Time)
    ensures Ticked(Ticked(ps, now), now) == Ticked(ps, now)
  {
  }

  // ---------------------------------------------------------------------
  // The pager adapter and the cover's layout listener

  /** A request to decode `asset` at the cover's laid-out size. */
  datatype DecodeRequest = DecodeRequest(asset: Asset, width: int, height: int)

  /**
   * The layout listener of the cover card. It reads the wallpaper asset
   * through its adapter each time it fires, and it is registered on the
   * card until it has seen a non-empty size.
   */
  class WallpaperPreviewLayoutListener {
    const provider: ThemePreviewAdapter
    const hasScrim: bool
    const translucent: bool
    var attached: bool
    var decodeRequests: seq<DecodeRequest>

    constructor (provider: ThemePreviewAdapter, hasScrim: bool, translucent: bool)
      ensures this.provider == provider && this.hasScrim == hasScrim && this.translucent == translucent
      ensures attached && decodeRequests == []
    {
      this.provider := provider;
      this.hasScrim := hasScrim;
      this.translucent := translucent;
      attached := true;
      decodeRequests := [];
    }

    /**
     * A layout pass over the box (left, top, right, bottom). Only a box of
     * positive width and height asks for a decode, and only then does the
     * listener unregister itself; so a registered listener asks at most once.
     */
    method OnLayoutChange(left: int, top: int, right: int, bottom: int)
      requires attached
      modifies this
      ensures attached <==> !(right - left > 0 && bottom - top > 0)
      ensures decodeRequests ==
                old(decodeRequests) +
                if right - left > 0 && bottom - top > 0 && provider.wallpaperAsset.Some?
                then [DecodeRequest(provider.wallpaperAsset.value, right - left, bottom - top)]
                else []
    {
      var targetWidth := right - left;
      var targetHeight := bottom - top;
      if targetWidth > 0 && targetHeight > 0 {
        var asset := provider.wallpaperAsset;
        if asset.Some? {
          decodeRequests := decodeRequests + [DecodeRequest(asset.value, targetWidth, targetHeight)];
        }
        attached := false;
      }
    }
  }

  /** The pager adapter built for one selected option. */
  class ThemePreviewAdapter {
    const theme: ThemeOption
    /** The cover draws a scrim over its wallpaper. */
    const coverScrim: bool
    /** The cover offers an edit action. */
    const editListener: bool
    var wallpaperAsset: Option<Asset>
    var pages: seq<Page>
    var coverListener: WallpaperPreviewLayoutListener?

    ghost predicate Valid()
      reads this
    {
      && coverListener != null
      && coverListener.provider == this
      && coverListener.hasScrim == coverScrim
      && coverListener.translucent
      && Kinds(pages) == PageKinds(theme)
    }

    /** Builds the pages for `theme`, adding each one the inclusion rules call for. */
    constructor (theme: ThemeOption, wallpaperAsset: Option<Asset>, editListener: bool)
      ensures Valid() && fresh(coverListener)
      ensures this.theme == theme && this.wallpaperAsset == wallpaperAsset && this.editListener == editListener
      ensures coverScrim == theme.isCustom
      ensures pages == Unbound(PageKinds(theme))
      ensures coverListener.attached && coverListener.decodeRequests == []
    {
      this.theme := theme;
      this.wallpaperAsset := wallpaperAsset;
      this.editListener := editListener;
      coverScrim := theme.isCustom;
      pages := [];
      coverListener := null;
      new;
      coverListener := new WallpaperPreviewLayoutListener(this, coverScrim, true);
      AddPage(Page(Cover, 0, None));
      AddPage(Page(Font, 0, None));
      ghost var ks := [Cover, Font];
      assert pages == Unbound(ks);
      if |theme.icons| >= IconSlotCount {
        AddPage(Page(Icon, 0, None));
        UnboundAppend(ks, Icon);
        ks := ks + [Icon];
      }
      if theme.colorAccentDark != UndefinedColor && theme.colorAccentLight != UndefinedColor {
        AddPage(Page(Color, 0, None));
        UnboundAppend(ks, Color);
        ks := ks + [Color];
      }
      if |theme.shapeAppIcons| > 0 {
        AddPage(Page(Shape, 0, None));
        UnboundAppend(ks, Shape);
        ks := ks + [Shape];
      }
      PageKindsUnfolded(theme);
      assert ks == PageKinds(theme);
      KindsOfUnbound(ks);
    }

    method AddPage(p: Page)
      modifies this
      ensures pages == old(pages) + [p]
      ensures wallpaperAsset == old(wallpaperAsset) && coverListener == old(coverListener)
    {
      pages := pages + [p];
    }

    method SetWallpaperAsset(asset: Option<Asset>)
      requires Valid()
      modifies this
      ensures Valid()
      ensures wallpaperAsset == asset && pages == old(pages) && coverListener == old(coverListener)
    {
      wallpaperAsset := asset;
    }

    /** Forces a rebind of the pages that show the wallpaper; no other page changes. */
    method RebindWallpaperIfAvailable()
      requires Valid()
      modifies this
      ensures Valid()
      ensures wallpaperAsset == old(wallpaperAsset) && coverListener == old(coverListener)
      ensures pages == Rebound(old(pages))
    {
      var i := 0;
      while i < |pages|
        invariant 0 <= i <= |pages| == |old(pages)|
        invariant forall j :: 0 <= j < i ==>
                    pages[j] == if ContainsWallpaper(old(pages)[j].kind) then ForceBind(old(pages)[j]) else old(pages)[j]
        invariant forall j :: i <= j < |pages| ==> pages[j] == old(pages)[j]
        invariant wallpaperAsset == old(wallpaperAsset) && coverListener == old(coverListener)
      {
        var page := pages[i];
        if ContainsWallpaper(page.kind) {
          pages := pages[i := ForceBind(page)];
        }
        i := i + 1;
      }
      assert Kinds(pages) == Kinds(old(pages));
    }

    /** Delivers a clock tick to the time-container pages. */
    method UpdateTime(now: Time)
      requires Valid()
      modifies this
      ensures Valid()
      ensures wallpaperAsset == old(wallpaperAsset) && coverListener == old(coverListener)
      ensures pages == Ticked(old(pages), now)
    {
      var i := 0;
      while i < |pages|
        invariant 0 <= i <= |pages| == |old(pages)|
        invariant forall j :: 0 <= j < i ==> pages[j] == Tick(old(pages)[j], now)
        invariant forall j :: i <= j < |pages| ==> pages[j] == old(pages)[j]
        invariant wallpaperAsset == old(wallpaperAsset) && coverListener == old(coverListener)
      {
        var page := pages[i];
        if IsTimeContainer(page.kind) {
          pages := pages[i := page.(shownTime := Some(now))];
        }
        i := i + 1;
      }
      assert Kinds(pages) == Kinds(old(pages));
    }
  }

  // ---------------------------------------------------------------------
  // The icons the colour page's tiles show

  /**
   * The icons the colour tiles show when each tile is bound only if the
   * icon it points at exists: tile i shows icon ColorTileIconIndex[i], and
   * binding stops at the first tile whose icon is missing.
   */
  function ColorTileIcons(icons: seq<Drawable>): (r: seq<Drawable>)
    ensures |r| <= ColorTileCount
    ensures forall i :: 0 <= i < |r| ==> ColorTileIconIndex[i] < |icons| && r[i] == icons[ColorTileIconIndex[i]]
    ensures |r| < ColorTileCount ==> ColorTileIconIndex[|r|] >= |icons|
  {
    var n := if |icons| > 3 then 3 else if |icons| > 1 then 2 else |icons|;
    seq(n, i requires 0 <= i < n => icons[ColorTileIconIndex[i]])
  }

  /**
   * The colour-tile loop as the source writes it: it guards on the tile
   * number being below the icon count, but reads the icon at the tile's
   * designated position, which is 3 for the last tile. It fails exactly
   * when there are three icons.
   */
  method BindColorTilesAsWritten(icons: seq<Drawable>) returns (r: Result<seq<Drawable>>)
    ensures r.Failure? <==> |icons| == 3
    ensures r.Failure? ==> r.error == IndexOutOfBounds
    ensures r.Success? ==> r.value == ColorTileIcons(icons)
  {
    assert ColorTileIconIndex[0] == 0 && ColorTileIconIndex[1] == 1 && ColorTileIconIndex[2] == 3;
    var tiles := [];
    var i := 0;
    while i < ColorTileCount && i < |icons|
      invariant 0 <= i <= ColorTileCount && i <= |icons|
      invariant |tiles| == i
      invariant forall j :: 0 <= j < i ==> ColorTileIconIndex[j] < |icons| && tiles[j] == icons[ColorTileIconIndex[j]]
    {
      var index := ColorTileIconIndex[i];
      if index >= |icons| {
        return Failure(IndexOutOfBounds);
      }
      tiles := tiles + [icons[index]];
      i := i + 1;
    }
    r := Success(tiles);
  }

  /** The colour-tile loop guarded on the icon each tile reads: it never reads past the list. */
  method BindColorTiles(icons: seq<Drawable>) returns (tiles: seq<Drawable>)
    ensures tiles == ColorTileIcons(icons)
    ensures |icons| > 3 ==> tiles == [icons[0], icons[1], icons[3]]
  {
    tiles := [];
    var i := 0;
    while i < ColorTileCount && ColorTileIconIndex[i] < |icons|
      invariant 0 <= i <= ColorTileCount
      invariant |tiles| == i
      invariant forall j :: 0 <= j < i ==> ColorTileIconIndex[j] < |icons| && tiles[j] == icons[ColorTileIconIndex[j]]
    {
      tiles := tiles + [icons[ColorTileIconIndex[i]]];
      i := i + 1;
    }
  }
}
