/**
 * The earlier typography (`TRSFonts.swift` of the `Sources/trs-system`
 * package): three custom families and no system font, a five-entry table,
 * and the same line-spacing split. Every family goes through the host's
 * font lookup.
 */
module EarlyFonts {
  import opened Wrappers
  import Scale
  import L = LegacyColors

  datatype TRSFontName = SansSerif | Serif | Monospace

  function FamilyName(n: TRSFontName): string {
    match n
    case SansSerif => "Helvetica Neue"
    case Serif => "Hoefler Text"
    case Monospace => "Fira Code"
  }

  /** `baseFontSize`: two points smaller for the monospaced family. */
  function BaseFontSize(n: TRSFontName): (s: real)
    ensures n == Monospace ==> s == Scale.BASE_SIZE - 2.0
    ensures n != Monospace ==> s == Scale.BASE_SIZE
  {
    match n
    case SansSerif => Scale.BASE_SIZE
    case Serif => Scale.BASE_SIZE
    case Monospace => Scale.BASE_SIZE - 2.0
  }

  datatype TRSFonts = Headline | Title | Body | Caption | Mono

  datatype TRSFontSpec = TRSFontSpec(name: TRSFontName, level: real, bold: bool, color: L.DynamicTRSColor)

  /** `TRSFontSpec.init`, whose colour defaults to the `text` role. */
  function Spec(name: TRSFontName, level: real, bold: bool, color: L.DynamicTRSColor := L.TextRole): (s: TRSFontSpec)
    ensures s.name == name && s.level == level && s.bold == bold && s.color == color
  {
    TRSFontSpec(name, level, bold, color)
  }

  /** `allFonts` */
  const AllFonts: map<TRSFonts, TRSFontSpec> := map[
    Caption := Spec(Monospace, -1.0, false, L.SecondaryText),
    Body := Spec(SansSerif, 0.0, false),
    Headline := Spec(SansSerif, 0.3, true, L.Headline),
    Title := Spec(SansSerif, 1.0, true, L.Headline),
    Mono := Spec(Monospace, 0.0, false)
  ]

  /**
   * Every font has an entry; `caption` overrides the default `text`
   * colour with secondary text, and only the monospaced entries are not
   * set in the sans-serif family.
   */
  lemma AllFontsTotal(f: TRSFonts)
    ensures f in AllFonts
    ensures AllFonts[f].color == L.TextRole <==> f == Body || f == Mono
    ensures AllFonts[f].color == L.SecondaryText <==> f == Caption
    ensures AllFonts[f].name == Monospace <==> f == Caption || f == Mono
  {
  }

  /** `fontSize(level:)` */
  function FontSize(spec: TRSFontSpec, level: real): (s: real)
    ensures level == 0.0 ==> s == BaseFontSize(spec.name)
  {
    BaseFontSize(spec.name) * Scale.Pow(Scale.GOLDEN_RATIO, level)
  }

  /** The values the view modifier derives in its initialiser. */
  datatype Metrics = Metrics(
    color: L.TRSColor,
    desiredLineHeight: real,
    pointFontSize: real,
    linespacing: real,
    topPadding: real,
    bottomPadding: real)

  /**
   * `TRSFontSpecViewModifier.init`: traps (`None`) when the host lacks the
   * family; the paddings keep their default 0 unless padding is asked for.
   */
  function Modifier(spec: TRSFontSpec, padding: bool, color: Option<L.TRSColors>, scheme: L.ColorScheme,
                    fontFound: bool, pointSize: real): (r: Option<Metrics>)
    ensures r.None? <==> !fontFound
    ensures r.Some? ==> r.value.linespacing == FontSize(spec, spec.level) * Scale.GOLDEN_RATIO - pointSize
    ensures r.Some? && padding ==>
      r.value.topPadding + r.value.bottomPadding == r.value.linespacing
      && r.value.topPadding == 2.0 * r.value.bottomPadding
    ensures r.Some? && !padding ==> r.value.topPadding == 0.0 && r.value.bottomPadding == 0.0
    ensures r.Some? && color.Some? ==> r.value.color == L.SwatchColor(color.value)
    ensures r.Some? && color.None? ==> r.value.color == L.DynamicColor(spec.color, scheme)
  {
    var c := if color.Some? then L.SwatchColor(color.value) else L.DynamicColor(spec.color, scheme);
    if !fontFound then None
    else
      var desired := FontSize(spec, spec.level) * Scale.GOLDEN_RATIO;
      var linespacing := desired - pointSize;
      // Without padding the stored properties keep their declared default 0.
      var top := if padding then (linespacing / 3.0) * 2.0 else 0.0;
      var bottom := if padding then linespacing / 3.0 else 0.0;
      Some(Metrics(c, desired, pointSize, linespacing, top, bottom))
  }

  /** `font(trs:padding:color:alignment:)`: the lookup never fails; only a missing family traps. */
  function FontModifier(trs: TRSFonts, scheme: L.ColorScheme, fontFound: bool, pointSize: real,
                        padding: bool := true, color: Option<L.TRSColors> := None): (r: Option<Metrics>)
    ensures trs in AllFonts
    ensures r.None? <==> !fontFound
  {
    AllFontsTotal(trs);
    Modifier(AllFonts[trs], padding, color, scheme, fontFound, pointSize)
  }
}
