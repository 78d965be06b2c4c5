/** The theme hook's state: the selected palette and surface style, the
    custom colours, the favourites list and the user colour library. Each
    React state setter becomes a method that reassigns the matching field. */
module ThemeState {
  import opened Common
  import opened Presets
  import opened PaletteUtils
  import opened CssVars

  datatype FavoriteType = Premade | UserMade

  /** `FavoritePalette`; `sourceKey` and `isUserLibrary` are optional. */
  datatype FavoritePalette = FavoritePalette(
    id: string, name: string, colors: CustomColors, kind: FavoriteType,
    sourceKey: Option<string>, isUserLibrary: Option<bool>)

  /** `Omit<FavoritePalette, 'id'>`, what `addUserColor` is given. */
  datatype FavoriteEntry = FavoriteEntry(
    name: string, colors: CustomColors, kind: FavoriteType,
    sourceKey: Option<string>, isUserLibrary: Option<bool>)

  const DefaultCustom := CustomColors("#2563eb", Some("#1e3a8a"), Some("#3b82f6"))
  const CustomKey := "custom"
  const DefaultFavoriteName := "Custom palette"

  function Ids(favs: seq<FavoritePalette>): set<string>
  {
    set f | f in favs :: f.id
  }

  /** `favs.filter((f) => f.id !== id)` */
  function Without(favs: seq<FavoritePalette>, id: string): (r: seq<FavoritePalette>)
    ensures forall f :: f in r <==> f in favs && f.id != id
    ensures |r| <= |favs|
  {
    if favs == [] then []
    else (if favs[0].id == id then [] else [favs[0]]) + Without(favs[1..], id)
  }

  /** Filtering distributes over concatenation, so the survivors keep their
      relative order. */
  lemma {:induction false} WithoutAppend(a: seq<FavoritePalette>, b: seq<FavoritePalette>, id: string)
    ensures Without(a + b, id) == Without(a, id) + Without(b, id)
    decreases |a|
  {
    if a == [] {
      assert a + b == b;
    } else {
      assert (a + b)[1..] == a[1..] + b;
      WithoutAppend(a[1..], b, id);
    }
  }

  /** Removing an id nobody has changes nothing. */
  lemma {:induction false} WithoutAbsent(favs: seq<FavoritePalette>, id: string)
    requires id !in Ids(favs)
    ensures Without(favs, id) == favs
    decreases |favs|
  {
    if favs != [] {
      assert favs[0] in favs;
      assert Ids(favs[1..]) <= Ids(favs) by {
        forall x | x in Ids(favs[1..]) ensures x in Ids(favs) {
          var f :| f in favs[1..] && f.id == x;
          assert f in favs;
        }
      }
      WithoutAbsent(favs[1..], id);
      assert [favs[0]] + favs[1..] == favs;
    }
  }

  /** Removing twice is removing once. */
  lemma {:induction false} WithoutIdempotent(favs: seq<FavoritePalette>, id: string)
    ensures Without(Without(favs, id), id) == Without(favs, id)
  {
    var r := Without(favs, id);
    assert forall f :: f in r ==> f.id != id;
    WithoutAbsent(r, id);
  }

  /** Adding a favourite under a fresh id and then removing that id restores
      the list. */
  lemma AddThenRemove(favs: seq<FavoritePalette>, fav: FavoritePalette)
    requires fav.id !in Ids(favs)
    ensures Without(favs + [fav], fav.id) == favs
  {
    WithoutAppend(favs, [fav], fav.id);
    WithoutAbsent(favs, fav.id);
    assert Without([fav], fav.id) == [];
  }

  /** The `palette` memo: 'custom' is built from the custom colours, a known
      preset key gives that preset, and anything else the first preset. */
  function ResolvePalette(paletteKey: string, customColors: CustomColors, mix: (string, string, real) -> string): (v: PaletteValues)
    ensures paletteKey == CustomKey ==> v == BuildPaletteFromCustom(customColors, mix)
    ensures paletteKey != CustomKey && Find(PaletteOptions, PaletteKey, paletteKey).Some? ==>
      exists i :: 0 <= i < |PaletteOptions| && PaletteOptions[i].key == paletteKey && v == PaletteOptions[i].values
    ensures paletteKey != CustomKey && Find(PaletteOptions, PaletteKey, paletteKey).None? ==> v == PaletteOptions[0].values
  {
    if paletteKey == CustomKey then BuildPaletteFromCustom(customColors, mix)
    else match Find(PaletteOptions, PaletteKey, paletteKey)
      case Some(p) => p.values
      case None => PaletteOptions[0].values
  }

  /** `style`: a known style key gives that style, anything else the first. */
  function ResolveStyle(styleKey: string): (v: StyleValues)
    ensures Find(StyleOptions, StyleKey, styleKey).Some? ==>
      exists i :: 0 <= i < |StyleOptions| && StyleOptions[i].key == styleKey && v == StyleOptions[i].values
    ensures Find(StyleOptions, StyleKey, styleKey).None? ==> v == StyleOptions[0].values
  {
    match Find(StyleOptions, StyleKey, styleKey)
      case Some(s) => s.values
      case None => StyleOptions[0].values
  }

  /** `applyFavorite` selects the preset itself only for a premade favourite
      whose non-empty source key names a preset. */
  predicate SelectsPreset(fav: FavoritePalette)
  {
    fav.kind == Premade && fav.sourceKey.Some? && fav.sourceKey.value != ""
    && Find(PaletteOptions, PaletteKey, fav.sourceKey.value).Some?
  }

  class Theme {
    /** The colour mixer behind `buildPaletteFromCustom`. */
    const mix: (string, string, real) -> string
    var paletteKey: string
    var styleKey: string
    var customColors: CustomColors
    var favorites: seq<FavoritePalette>
    var userLibrary: seq<FavoritePalette>

    constructor (mix: (string, string, real) -> string)
      ensures this.mix == mix
      ensures paletteKey == CustomKey && styleKey == "solid" && customColors == DefaultCustom
      ensures favorites == [] && userLibrary == []
      ensures ActivePalette() == BuildPaletteFromCustom(DefaultCustom, mix)
      ensures ActiveStyle() == StyleOptions[0].values
    {
      this.mix := mix;
      paletteKey := CustomKey;
      styleKey := "solid";
      customColors := DefaultCustom;
      favorites := [];
      userLibrary := [];
    }

    /** `activePalette` */
    function ActivePalette(): (v: PaletteValues)
      reads this
      ensures paletteKey == CustomKey ==> v == BuildPaletteFromCustom(customColors, mix)
      ensures forall i :: 0 <= i < |PaletteOptions| && PaletteOptions[i].key == paletteKey ==> v == PaletteOptions[i].values
      ensures paletteKey != CustomKey && (forall i :: 0 <= i < |PaletteOptions| ==> PaletteOptions[i].key != paletteKey) ==>
                v == PaletteOptions[0].values
    {
      PresetsResolve(mix, customColors);
      ResolvePalette(paletteKey, customColors, mix)
    }

    /** `style`: the selected style preset, or the first one. */
    function ActiveStyle(): (v: StyleValues)
      reads this
      ensures forall i :: 0 <= i < |StyleOptions| && StyleOptions[i].key == styleKey ==> v == StyleOptions[i].values
      ensures (forall i :: 0 <= i < |StyleOptions| ==> StyleOptions[i].key != styleKey) ==> v == StyleOptions[0].values
    {
      PresetsResolve(mix, customColors);
      ResolveStyle(styleKey)
    }

    /** The variables the effect hands to `applyCssVariables`. */
    function Variables(): (v: CssVariables)
      reads this
      ensures v.bg1 == ActivePalette().bg1 && v.bg2 == ActivePalette().bg2 && v.muted == ActivePalette().muted
      ensures v.accent == ActivePalette().accent && v.accent2 == ActivePalette().accent2
      ensures v.glass == ActiveStyle().glass && v.glassBorder == ActiveStyle().glassBorder && v.panelBlur == ActiveStyle().blur
      ensures |Entries(v)| == 21
    {
      BuildCssVariables(ActivePalette(), ActiveStyle())
    }

    /** `setPalette` */
    method SetPalette(key: string)
      modifies this
      ensures paletteKey == key
      ensures styleKey == old(styleKey) && customColors == old(customColors)
      ensures favorites == old(favorites) && userLibrary == old(userLibrary)
    {
      paletteKey := key;
    }

    /** `setStyle` */
    method SetStyle(key: string)
      modifies this
      ensures styleKey == key
      ensures paletteKey == old(paletteKey) && customColors == old(customColors)
      ensures favorites == old(favorites) && userLibrary == old(userLibrary)
    {
      styleKey := key;
    }

    /** `setCustomPalette`: the custom colours become the active palette. */
    method SetCustomPalette(colors: CustomColors)
      modifies this
      ensures customColors == colors && paletteKey == CustomKey
      ensures ActivePalette() == BuildPaletteFromCustom(colors, mix)
      ensures styleKey == old(styleKey) && favorites == old(favorites) && userLibrary == old(userLibrary)
    {
      customColors := colors;
      paletteKey := CustomKey;
    }

    /** `addFavorite`: `kind` None is the omitted argument. The id plays the
        part of `crypto.randomUUID()`: some id no favourite has yet. */
    method AddFavorite(name: string, colors: CustomColors, kind: Option<FavoriteType>, sourceKey: Option<string>)
      returns (added: FavoritePalette)
      modifies this
      ensures added.id !in Ids(old(favorites))
      ensures added.name == (if name == "" then DefaultFavoriteName else name)
      ensures added.kind == (if kind.None? then UserMade else kind.value)
      ensures added.colors == colors && added.sourceKey == sourceKey && added.isUserLibrary.None?
      ensures favorites == old(favorites) + [added]
      ensures paletteKey == old(paletteKey) && styleKey == old(styleKey)
      ensures customColors == old(customColors) && userLibrary == old(userLibrary)
    {
      FreshExists(Ids(favorites));
      var id :| id !in Ids(favorites);
      var kindOrDefault := if kind.None? then UserMade else kind.value;
      added := FavoritePalette(id, if name == "" then DefaultFavoriteName else name, colors, kindOrDefault, sourceKey, None);
      favorites := favorites + [added];
    }

    /** `removeFavorite` */
    method RemoveFavorite(id: string)
      modifies this
      ensures favorites == Without(old(favorites), id)
      ensures paletteKey == old(paletteKey) && styleKey == old(styleKey)
      ensures customColors == old(customColors) && userLibrary == old(userLibrary)
    {
      favorites := Without(favorites, id);
    }

    /** `applyFavorite` */
    method ApplyFavorite(fav: FavoritePalette)
      modifies this
      ensures SelectsPreset(fav) ==> paletteKey == fav.sourceKey.value && customColors == old(customColors)
      ensures SelectsPreset(fav) ==> ActivePalette() == Find(PaletteOptions, PaletteKey, fav.sourceKey.value).value.values
      ensures !SelectsPreset(fav) ==> paletteKey == CustomKey && customColors == fav.colors
      ensures !SelectsPreset(fav) ==> ActivePalette() == BuildPaletteFromCustom(fav.colors, mix)
      ensures styleKey == old(styleKey) && favorites == old(favorites) && userLibrary == old(userLibrary)
    {
      if SelectsPreset(fav) {
        CustomIsNoPreset();
        paletteKey := fav.sourceKey.value;
      } else {
        SetCustomPalette(fav.colors);
      }
    }

    /** `addUserColor`: a fresh id, the library flag set, the type forced to
        user, and a fresh non-empty source key unless the entry has one. */
    method AddUserColor(entry: FavoriteEntry) returns (added: FavoritePalette)
      modifies this
      ensures added.id !in Ids(old(userLibrary))
      ensures added.name == entry.name && added.colors == entry.colors
      ensures added.isUserLibrary == Some(true) && added.kind == UserMade
      ensures entry.sourceKey.Some? && entry.sourceKey.value != "" ==> added.sourceKey == entry.sourceKey
      ensures added.sourceKey.Some? && added.sourceKey.value != ""
      ensures userLibrary == old(userLibrary) + [added]
      ensures paletteKey == old(paletteKey) && styleKey == old(styleKey)
      ensures customColors == old(customColors) && favorites == old(favorites)
    {
      FreshExists(Ids(userLibrary));
      var id :| id !in Ids(userLibrary);
      FreshExists({""});
      var freshKey :| freshKey !in {""};
      var key := if entry.sourceKey.Some? && entry.sourceKey.value != "" then entry.sourceKey else Some(freshKey);
      added := FavoritePalette(id, entry.name, entry.colors, UserMade, key, Some(true));
      userLibrary := userLibrary + [added];
    }
  }

  /** A favourite added and then removed leaves the favourites as they were. */
  method AddThenRemoveFavorite(theme: Theme, name: string, colors: CustomColors)
    modifies theme
    ensures theme.favorites == old(theme.favorites)
  {
    var added := theme.AddFavorite(name, colors, None, None);
    theme.RemoveFavorite(added.id);
    AddThenRemove(old(theme.favorites), added);
  }

  /** An unknown palette key falls back to the first preset, and an unknown
      style key to the solid style. */
  lemma UnknownKeysFallBack(mix: (string, string, real) -> string, c: CustomColors)
    ensures ResolvePalette("sunset", c, mix) == PaletteOptions[0].values
    ensures ResolveStyle("neon") == StyleOptions[0].values
  {
    var keys := ["aurora", "lagoon", "coral", "citrus", "midnight"];
    assert forall i :: 0 <= i < |PaletteOptions| ==> PaletteOptions[i].key == keys[i];
    assert forall i :: 0 <= i < |keys| ==> keys[i][0] != "sunset"[0] || keys[i][1] != "sunset"[1];
  }

  /** Every preset key selects its own preset, and every style key its
      own style: no preset is shadowed by an earlier one or by 'custom'. */
  lemma PresetsResolve(mix: (string, string, real) -> string, c: CustomColors)
    ensures forall i :: 0 <= i < |PaletteOptions| ==> ResolvePalette(PaletteOptions[i].key, c, mix) == PaletteOptions[i].values
    ensures forall i :: 0 <= i < |StyleOptions| ==> ResolveStyle(StyleOptions[i].key) == StyleOptions[i].values
  {
    PaletteKeysResolve();
    StyleKeysResolve();
    CustomIsNoPreset();
    forall i | 0 <= i < |PaletteOptions|
      ensures PaletteOptions[i].key != CustomKey
    {
      assert Find(PaletteOptions, PaletteKey, PaletteOptions[i].key).Some?;
    }
  }
}
