/** The built-in palette and surface-style presets offered by the settings
    screen, and the value shapes they share with the custom palette. */
module Presets {
  import opened Common

  /** `PaletteOption['values']`: `accent3` is optional. */
  datatype PaletteValues = PaletteValues(accent: string, accent2: string, accent3: Option<string>, bg1: string, bg2: string, muted: string)

  datatype PaletteOption = PaletteOption(key: string, name: string, description: string, swatch: seq<string>, values: PaletteValues)

  /** `StyleOption['values']`: the last four entries are optional. */
  datatype StyleValues = StyleValues(
    glass: string, glassBorder: string, glassShadow: string, panel: string, panelBorder: string, blur: string,
    headerBg: Option<string>, sidebarBg: Option<string>, surfaceWeak: Option<string>, surfaceWeakBorder: Option<string>)

  datatype StyleOption = StyleOption(key: string, name: string, description: string, values: StyleValues)

  const PaletteOptions: seq<PaletteOption> := [
    PaletteOption("aurora", "Aurora", "Purple-blue glow with soft neon edges.", ["#8b5cf6", "#7c3aed", "#0f0520"],
      PaletteValues("#8b5cf6", "#7c3aed", Some("#a78bfa"), "#0f0520", "#2b1048", "rgba(255,255,255,0.78)")),
    PaletteOption("lagoon", "Lagoon", "Cool teals inspired by twilight water.", ["#22d3ee", "#0ea5e9", "#04121f"],
      PaletteValues("#22d3ee", "#0ea5e9", Some("#38bdf8"), "#04121f", "#09253a", "rgba(226,248,255,0.78)")),
    PaletteOption("coral", "Coral", "Warm corals with sunset gradients.", ["#fb7185", "#f97316", "#1b0c0f"],
      PaletteValues("#fb7185", "#f97316", Some("#fda4af"), "#1b0c0f", "#2b0f1a", "rgba(255,231,231,0.8)")),
    PaletteOption("citrus", "Citrus", "Bright lime gradients with crisp contrast.", ["#a3e635", "#34d399", "#0c1507"],
      PaletteValues("#a3e635", "#34d399", Some("#bef264"), "#0c1507", "#10220c", "rgba(230,255,214,0.8)")),
    PaletteOption("midnight", "Midnight", "Deep navy with electric cyan highlights.", ["#38bdf8", "#0ea5e9", "#050814"],
      PaletteValues("#38bdf8", "#0ea5e9", Some("#67e8f9"), "#050814", "#0a1225", "rgba(214,233,255,0.82)"))
  ]

  const StyleOptions: seq<StyleOption> := [
    StyleOption("solid", "Solid", "Opaque surfaces, minimal blur — default look.",
      StyleValues("rgba(255,255,255,0.02)", "rgba(255,255,255,0.08)", "0 8px 24px rgba(0,0,0,0.35)",
                  "rgba(22,24,30,1)", "rgba(255,255,255,0.08)", "0px",
                  Some("rgba(12,13,16,0.96)"), Some("rgba(12,13,16,0.94)"),
                  Some("rgba(255,255,255,0.04)"), Some("rgba(255,255,255,0.08)"))),
    StyleOption("glass", "Glass", "Frosted glass, glows, and soft gradients.",
      StyleValues("rgba(255,255,255,0.06)", "rgba(255,255,255,0.14)", "0 8px 30px rgba(11,7,23,0.45)",
                  "linear-gradient(180deg, rgba(255,255,255,0.06), rgba(255,255,255,0.02))", "rgba(255,255,255,0.12)", "12px",
                  None, None,
                  Some("rgba(255,255,255,0.05)"), Some("rgba(255,255,255,0.1)")))
  ]

  function PaletteKey(p: PaletteOption): string { p.key }

  function StyleKey(p: StyleOption): string { p.key }

  /** The first option whose key is `key`: `options.find((p) => p.key === key)`,
      for palettes (`keyOf` is `PaletteKey`) and styles (`StyleKey`) alike. */
  function Find<T>(options: seq<T>, keyOf: T -> string, key: string): (r: Option<T>)
    ensures r.Some? ==> r.value in options && keyOf(r.value) == key
    ensures r.None? <==> forall i :: 0 <= i < |options| ==> keyOf(options[i]) != key
  {
    if options == [] then None
    else if keyOf(options[0]) == key then Some(options[0])
    else
      assert forall i :: 1 <= i < |options| ==> options[i] == options[1..][i - 1];
      Find(options[1..], keyOf, key)
  }

  /** `find` returns the earliest match: an option whose key no earlier
      option has is the one found for that key. */
  lemma {:induction false} FindEarliest<T>(options: seq<T>, keyOf: T -> string, i: int)
    requires 0 <= i < |options|
    requires forall j :: 0 <= j < i ==> keyOf(options[j]) != keyOf(options[i])
    ensures Find(options, keyOf, keyOf(options[i])) == Some(options[i])
  {
    if i > 0 {
      assert keyOf(options[0]) != keyOf(options[i]);
      assert forall j :: 0 <= j < i - 1 ==> options[1..][j] == options[j + 1];
      FindEarliest(options[1..], keyOf, i - 1);
    }
  }

  /** The preset keys, in order. */
  const PaletteKeys: seq<string> := ["aurora", "lagoon", "coral", "citrus", "midnight"]

  lemma PaletteKeysDistinct()
    ensures |PaletteKeys| == |PaletteOptions|
    ensures forall i :: 0 <= i < |PaletteOptions| ==> PaletteOptions[i].key == PaletteKeys[i]
    ensures forall i, j :: 0 <= j < i < |PaletteKeys| ==> PaletteKeys[j] != PaletteKeys[i]
  {
    assert forall i, j :: 0 <= j < i < |PaletteKeys| ==>
      PaletteKeys[j][0] != PaletteKeys[i][0] || PaletteKeys[j][1] != PaletteKeys[i][1];
  }

  /** Every palette preset's key selects that preset: no earlier one shadows it. */
  lemma PaletteKeysResolve()
    ensures forall i :: 0 <= i < |PaletteOptions| ==> Find(PaletteOptions, PaletteKey, PaletteOptions[i].key) == Some(PaletteOptions[i])
  {
    PaletteKeysDistinct();
    forall i | 0 <= i < |PaletteOptions|
      ensures Find(PaletteOptions, PaletteKey, PaletteOptions[i].key) == Some(PaletteOptions[i])
    {
      FindEarliest(PaletteOptions, PaletteKey, i);
    }
  }

  /** Every style preset's key selects that style. */
  lemma StyleKeysResolve()
    ensures forall i :: 0 <= i < |StyleOptions| ==> Find(StyleOptions, StyleKey, StyleOptions[i].key) == Some(StyleOptions[i])
  {
    assert StyleOptions[0].key[0] != StyleOptions[1].key[0];
    FindEarliest(StyleOptions, StyleKey, 0);
    FindEarliest(StyleOptions, StyleKey, 1);
  }

  /** "custom" names no preset, so the custom palette never shadows one. */
  lemma CustomIsNoPreset()
    ensures Find(PaletteOptions, PaletteKey, "custom").None?
  {
    PaletteKeysDistinct();
    assert forall i :: 0 <= i < |PaletteKeys| ==> PaletteKeys[i][2] != "custom"[2];
  }
}
