/**
 * The older `Theme`, keyed by the thirteen-role `ThemeElement`, with its
 * own built-in "Light" and "Dark" tables over the current palette.
 */
module LegacyThemes {
  import opened Colors
  import opened LegacyThemeElements
  import B = BaseColors

  datatype Theme = Theme(name: string, colors: map<ThemeElement, TRSColor>)

  /** `color(for:)`: the mapped colour, or white when the role has no entry. */
  function ColorFor(t: Theme, e: ThemeElement): (c: TRSColor)
    ensures e in t.colors ==> c == t.colors[e]
    ensures e !in t.colors ==> c == B.White
  {
    if e in t.colors then t.colors[e] else B.White
  }

  ghost predicate Complete(t: Theme) {
    forall e: ThemeElement :: e in t.colors
  }

  /** The entries of the older "Light" dictionary, one per role. */
  function LightEntry(e: ThemeElement): TRSColor {
    match e
    case Background => B.White
    case Text => B.Text
    case Headline => B.Primary
    case Accent => B.Accent
    case Separator => Blend(B.Accent, B.White, 0.8)
    case Shadow => B.Shadow
    case Error => WithOpacity(B.Red, 0.8)
    case Warning => WithOpacity(B.Yellow, 0.8)
    case SecondaryBackground => Blend(B.Ground, B.White, 0.8)
    case HighlightedBackground => WithOpacity(B.Accent, 0.5)
    case UiElement => WithOpacity(B.Text, 0.3)
    case Clear => B.None
    case SecondaryText => B.Secondary
  }

  /** The entries of the older "Dark" dictionary, one per role. */
  function DarkEntry(e: ThemeElement): TRSColor {
    match e
    case Background => B.Text
    case Text => B.Ground
    case Headline => B.White
    case Accent => B.Accent
    case Separator => WithOpacity(B.Text, 0.1)
    case Shadow => B.Primary
    case Error => WithOpacity(B.Red, 0.1)
    case Warning => WithOpacity(B.Yellow, 0.1)
    case SecondaryBackground => WithOpacity(B.Text, 0.8)
    case HighlightedBackground => WithOpacity(B.Primary, 0.5)
    case UiElement => WithOpacity(B.Ground, 0.3)
    case Clear => B.None
    case SecondaryText => B.Secondary
  }

  const Light: Theme := Theme("Light", map e | e in AllCases :: LightEntry(e))

  const Dark: Theme := Theme("Dark", map e | e in AllCases :: DarkEntry(e))

  /** Both tables cover all thirteen roles, so their lookups never reach the fallback. */
  lemma BuiltInThemesComplete()
    ensures Complete(Light) && Complete(Dark)
    ensures Light.name == "Light" && Dark.name == "Dark"
  {
    AllCasesExactlyOnce();
  }

  /** A lookup in a built-in theme answers the theme's own entry for that role. */
  lemma BuiltInLookup(e: ThemeElement)
    ensures ColorFor(Light, e) == LightEntry(e)
    ensures ColorFor(Dark, e) == DarkEntry(e)
  {
    AllCasesExactlyOnce();
    assert e in AllCases;
  }

  /** `error` and `warning` use the same red and yellow in both themes: 80% opaque in light, 10% in dark. */
  lemma StatusOpacities()
    ensures ColorFor(Light, Error).hex == ColorFor(Dark, Error).hex == B.Red.hex
    ensures ColorFor(Light, Warning).hex == ColorFor(Dark, Warning).hex == B.Yellow.hex
    ensures ColorFor(Light, Error).opacity == ColorFor(Light, Warning).opacity == 0.8
    ensures ColorFor(Dark, Error).opacity == ColorFor(Dark, Warning).opacity == 0.1
  {
    BuiltInLookup(Error);
    BuiltInLookup(Warning);
  }

  /** Light `shadow` is the palette shadow (text at 10%); dark `shadow` is opaque primary. */
  lemma ShadowEntries()
    ensures ColorFor(Light, Shadow) == WithOpacity(B.Text, 0.1)
    ensures ColorFor(Dark, Shadow) == B.Primary && B.Primary.opacity == 1.0
  {
    BuiltInLookup(Shadow);
  }

  /** `clear` is `none` and `secondaryText` is `secondary` in both themes. */
  lemma SharedRoles()
    ensures ColorFor(Light, Clear) == ColorFor(Dark, Clear) == B.None
    ensures ColorFor(Light, SecondaryText) == ColorFor(Dark, SecondaryText) == B.Secondary
  {
    BuiltInLookup(Clear);
    BuiltInLookup(SecondaryText);
  }
}
