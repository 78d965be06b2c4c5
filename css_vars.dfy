/** The CSS custom properties derived from the active palette and surface
    style, with the source's `||` fallbacks. */
module CssVars {
  import opened Common
  import opened Presets
  import opened PaletteUtils

  /** The object `buildCssVariables` returns, one field per property
      (`bg-1` is `bg1`, `accent-2` is `accent2`, and so on). */
  datatype CssVariables = CssVariables(
    bg1: string, bg2: string, glass: string, glassBorder: string,
    accent: string, accent2: string, accent3: string, muted: string,
    glassShadow: string, panelBg: string, panelBorder: string, panelBlur: string, panelShadow: string,
    headerBg: string, headerBorder: string, sidebarBg: string, sidebarBorder: string,
    logoFillStart: string, logoFillEnd: string, surfaceWeak: string, surfaceWeakBorder: string)

  /** The property names, in the order the object literal lists them. */
  const PropertyNames: seq<string> := [
    "bg-1", "bg-2", "glass", "glass-border", "accent", "accent-2", "accent-3", "muted",
    "glass-shadow", "panel-bg", "panel-border", "panel-blur", "panel-shadow",
    "header-bg", "header-border", "sidebar-bg", "sidebar-border",
    "logo-fill-start", "logo-fill-end", "surface-weak", "surface-weak-border"]

  /** The name/value pairs of the object, as `Object.entries` lists them. */
  function Entries(v: CssVariables): (e: seq<(string, string)>)
    ensures |e| == |PropertyNames|
    ensures forall i :: 0 <= i < |e| ==> e[i].0 == PropertyNames[i]
  {
    [("bg-1", v.bg1), ("bg-2", v.bg2), ("glass", v.glass), ("glass-border", v.glassBorder),
     ("accent", v.accent), ("accent-2", v.accent2), ("accent-3", v.accent3), ("muted", v.muted),
     ("glass-shadow", v.glassShadow), ("panel-bg", v.panelBg), ("panel-border", v.panelBorder),
     ("panel-blur", v.panelBlur), ("panel-shadow", v.panelShadow),
     ("header-bg", v.headerBg), ("header-border", v.headerBorder), ("sidebar-bg", v.sidebarBg),
     ("sidebar-border", v.sidebarBorder), ("logo-fill-start", v.logoFillStart), ("logo-fill-end", v.logoFillEnd),
     ("surface-weak", v.surfaceWeak), ("surface-weak-border", v.surfaceWeakBorder)]
  }

  /** `linear-gradient(180deg, a, b)` */
  function Gradient(a: string, b: string): string
  {
    "linear-gradient(180deg, " + a + ", " + b + ")"
  }

  /** The glass header: two stops of `bg1`, with alphas `cc` then `99` when
      `bg1` is a hex colour, and `bg1` itself twice when it is not. */
  function HeaderGlass(palette: PaletteValues): (r: string)
    ensures |palette.bg1| > 0 && palette.bg1[0] == '#' ==> r == Gradient(palette.bg1 + "cc", palette.bg1 + "99")
    ensures !(|palette.bg1| > 0 && palette.bg1[0] == '#') ==> r == Gradient(palette.bg1, palette.bg1)
  {
    Gradient(WithAlpha(palette.bg1, "cc"), WithAlpha(palette.bg1, "99"))
  }

  /** The glass sidebar: `accent` then `bg2`, each given its alpha (`26`,
      `d9`) only when it is a hex colour. */
  function SidebarGlass(palette: PaletteValues): (r: string)
    ensures r == Gradient(if |palette.accent| > 0 && palette.accent[0] == '#' then palette.accent + "26" else palette.accent,
                          if |palette.bg2| > 0 && palette.bg2[0] == '#' then palette.bg2 + "d9" else palette.bg2)
  {
    Gradient(WithAlpha(palette.accent, "26"), WithAlpha(palette.bg2, "d9"))
  }

  predicate Given(s: Option<string>)
  {
    s.Some? && s.value != ""
  }

  /** `buildCssVariables` */
  function BuildCssVariables(palette: PaletteValues, style: StyleValues): (v: CssVariables)
    // copied straight from the palette
    ensures v.bg1 == palette.bg1 && v.bg2 == palette.bg2 && v.accent == palette.accent && v.accent2 == palette.accent2
    ensures v.muted == palette.muted && v.logoFillStart == palette.accent && v.logoFillEnd == palette.accent2
    // copied straight from the style, and the aliases
    ensures v.glass == style.glass && v.glassBorder == style.glassBorder && v.glassShadow == style.glassShadow
    ensures v.panelBg == style.panel && v.panelBorder == style.panelBorder && v.panelBlur == style.blur
    ensures v.panelShadow == v.glassShadow && v.headerBorder == v.glassBorder && v.sidebarBorder == v.glassBorder
    // the fallbacks
    ensures v.accent3 == if Given(palette.accent3) then palette.accent3.value else palette.accent2
    ensures v.headerBg == if Given(style.headerBg) then style.headerBg.value else HeaderGlass(palette)
    ensures v.sidebarBg == if Given(style.sidebarBg) then style.sidebarBg.value else SidebarGlass(palette)
    ensures v.surfaceWeak == if Given(style.surfaceWeak) then style.surfaceWeak.value else "rgba(255,255,255,0.05)"
    ensures v.surfaceWeakBorder == if Given(style.surfaceWeakBorder) then style.surfaceWeakBorder.value else style.glassBorder
  {
    var headerBg := OrElse(style.headerBg, HeaderGlass(palette));
    var sidebarBg := OrElse(style.sidebarBg, SidebarGlass(palette));
    var softSurface := OrElse(style.surfaceWeak, "rgba(255,255,255,0.05)");
    var softBorder := OrElse(style.surfaceWeakBorder, style.glassBorder);
    CssVariables(
      palette.bg1, palette.bg2, style.glass, style.glassBorder,
      palette.accent, palette.accent2, OrElse(palette.accent3, palette.accent2), palette.muted,
      style.glassShadow, style.panel, style.panelBorder, style.blur, style.glassShadow,
      headerBg, style.glassBorder, sidebarBg, style.glassBorder,
      palette.accent, palette.accent2, softSurface, softBorder)
  }

  /** The object has 21 distinct keys. */
  lemma TwentyOneDistinctKeys(v: CssVariables)
    ensures |Entries(v)| == 21
    ensures forall i, j :: 0 <= i < j < 21 ==> Entries(v)[i].0 != Entries(v)[j].0
  {
  }

  /** The glass style has no header or sidebar colour, so both fall back to
      the gradients; the solid style sets its own. */
  lemma GlassUsesGradients(palette: PaletteValues)
    ensures BuildCssVariables(palette, StyleOptions[1].values).headerBg == HeaderGlass(palette)
    ensures BuildCssVariables(palette, StyleOptions[1].values).sidebarBg == SidebarGlass(palette)
    ensures BuildCssVariables(palette, StyleOptions[0].values).headerBg == "rgba(12,13,16,0.96)"
  {
  }

  /** A palette colour without '#' receives no alpha suffix in the gradients. */
  lemma HeaderGradientOfNamedColour(palette: PaletteValues)
    requires palette.bg1 == "black"
    ensures HeaderGlass(palette) == "linear-gradient(180deg, black, black)"
  {
  }
}
