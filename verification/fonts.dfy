/**
 * The typography of the `TRSSystem` tree (`TRSFonts.swift`): font
 * families, the font table, and the metrics the font view modifier
 * derives from a spec. Whether the host finds a font and the point size
 * of the font it loads are parameters; colours resolve through the
 * legacy palette under a given colour scheme.
 */
module Fonts {
  import opened Wrappers
  import Scale
  import L = LegacyColors

  datatype TRSFontName = SansSerif | Serif | Monospace | System

  /** The family name the host is asked for. */
  function FamilyName(n: TRSFontName): string {
    match n
    case SansSerif => "Helvetica Neue"
    case Serif => "Hoefler Text"
    case Monospace => "Fira Code"
    case System => "System"
  }

  /** `baseFontSize`: two points smaller for the monospaced family. */
  function BaseFontSize(n: TRSFontName): (s: real)
    ensures n == Monospace ==> s == Scale.BASE_SIZE - 2.0
    ensures n != Monospace ==> s == Scale.BASE_SIZE
  {
    match n
    case SansSerif => Scale.BASE_SIZE
    case Serif => Scale.BASE_SIZE
    case Monospace => Scale.BASE_SIZE - 2.0
    case System => Scale.BASE_SIZE
  }

  datatype TRSFonts = Headline | Title | Body | Caption | Mono | NumDisplay

  datatype TRSFontSpec = TRSFontSpec(name: TRSFontName, level: real, bold: bool, color: L.DynamicTRSColor)

  /** `TRSFontSpec.init`, whose colour defaults to the `text` role. */
  function Spec(name: TRSFontName, level: real, bold: bool, color: L.DynamicTRSColor := L.TextRole): (s: TRSFontSpec)
    ensures s.name == name && s.level == level && s.bold == bold && s.color == color
  {
    TRSFontSpec(name, level, bold, color)
  }

  /** `allFonts` */
  const AllFonts: map<TRSFonts, TRSFontSpec> := map[
    Caption := Spec(Monospace, -1.0, false, L.SecondaryText),
    Body := Spec(System, 0.0, false),
    Headline := Spec(System, 0.3, true, L.Headline),
    Title := Spec(System, 1.0, true, L.Headline),
    Mono := Spec(Monospace, 0.0, false),
    NumDisplay := Spec(Monospace, 1.0, true, L.Headline)
  ]

  /**
   * The table has an entry for every font, so its lookup never fails;
   * `body` and `mono` keep the default `text` colour, `caption` is
   * secondary text and the bold fonts are headline-coloured.
   */
  lemma AllFontsTotal(f: TRSFonts)
    ensures f in AllFonts
    ensures AllFonts[f].color == L.TextRole <==> f == Body || f == Mono
    ensures AllFonts[f].color == L.SecondaryText <==> f == Caption
    ensures AllFonts[f].bold <==> AllFonts[f].color == L.Headline
  {
  }

  /** `fontSize(level:)`: the family's base size scaled by the golden ratio. */
  function FontSize(spec: TRSFontSpec, level: real): (s: real)
    ensures level == 0.0 ==> s == BaseFontSize(spec.name)
  {
    BaseFontSize(spec.name) * Scale.Pow(Scale.GOLDEN_RATIO, level)
  }

  /** The values the view modifier derives in its initialiser. */
  datatype Metrics = Metrics(
    color: L.TRSColor,
    fontSize: real,
    desiredLineHeight: real,
    pointFontSize: real,
    linespacing: real,
    topPadding: real,
    bottomPadding: real)

  /**
   * `TRSFontSpecViewModifier.init`. `fontFound` is whether the host has
   * the custom family; `pointSize` is the point size of the font it
   * loads. A missing custom family traps (`None`); the system family is
   * always available.
   */
  function Modifier(spec: TRSFontSpec, padding: bool, color: Option<L.TRSColors>, scheme: L.ColorScheme,
                    fontFound: bool, pointSize: real): (r: Option<Metrics>)
    ensures r.None? <==> spec.name != System && !fontFound
    ensures r.Some? ==> r.value.fontSize == FontSize(spec, spec.level)
    ensures r.Some? ==> r.value.linespacing == r.value.fontSize * Scale.GOLDEN_RATIO - pointSize
    ensures r.Some? && padding ==>
      r.value.topPadding + r.value.bottomPadding == r.value.linespacing
      && r.value.topPadding == 2.0 * r.value.bottomPadding
    ensures r.Some? && !padding ==> r.value.topPadding == 0.0 && r.value.bottomPadding == 0.0
    ensures r.Some? && color.Some? ==> r.value.color == L.SwatchColor(color.value)
    ensures r.Some? && color.None? ==> r.value.color == L.DynamicColor(spec.color, scheme)
  {
    var c := if color.Some? then L.SwatchColor(color.value) else L.DynamicColor(spec.color, scheme);
    var size := FontSize(spec, spec.level);
    if spec.name != System && !fontFound then None
    else
      var desired := size * Scale.GOLDEN_RATIO;
      var linespacing := desired - pointSize;
      var top := if padding then (linespacing / 3.0) * 2.0 else 0.0;
      var bottom := if padding then linespacing / 3.0 else 0.0;
      Some(Metrics(c, size, desired, pointSize, linespacing, top, bottom))
  }

  /**
   * `font(trs:padding:color:alignment:)`: the table lookup always
   * succeeds, so the only trap left is a missing custom family, which the
   * system-font entries cannot hit.
   */
  function FontModifier(trs: TRSFonts, scheme: L.ColorScheme, fontFound: bool, pointSize: real,
                        padding: bool := true, color: Option<L.TRSColors> := None): (r: Option<Metrics>)
    ensures trs in AllFonts
    ensures r.None? <==> AllFonts[trs].name == Monospace && !fontFound
    ensures trs in {Body, Headline, Title} ==> r.Some?
  {
    AllFontsTotal(trs);
    Modifier(AllFonts[trs], padding, color, scheme, fontFound, pointSize)
  }

  /** The `body` font never traps, sits at the base size and takes the text role's colour. */
  lemma BodyMetrics(scheme: L.ColorScheme, pointSize: real)
    ensures FontModifier(Body, scheme, false, pointSize).Some?
    ensures FontModifier(Body, scheme, false, pointSize).value.fontSize == Scale.BASE_SIZE
    ensures FontModifier(Body, scheme, false, pointSize).value.color == L.DynamicColor(L.TextRole, scheme)
  {
    AllFontsTotal(Body);
  }
}
