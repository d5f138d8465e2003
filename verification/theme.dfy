/**
 * `Theme` of the current generation: a name and a partial mapping from the
 * sixteen roles to colours, with the built-in "Light" and "Dark" themes.
 */
module Themes {
  import opened Colors
  import opened ThemeElements
  import B = BaseColors

  datatype Theme = Theme(name: string, colors: map<ThemeElement, TRSColor>)

  /** `color(for:)`: the mapped colour, or white when the role has no entry. Never fails. */
  function ColorFor(t: Theme, e: ThemeElement): (c: TRSColor)
    ensures e in t.colors ==> c == t.colors[e]
    ensures e !in t.colors ==> c == B.White
  {
    if e in t.colors then t.colors[e] else B.White
  }

  /** A theme that maps every role, so that lookups never fall back. */
  ghost predicate Complete(t: Theme) {
    forall e: ThemeElement :: e in t.colors
  }

  /** The entries of the built-in "Light" theme's dictionary, one per role. */
  function LightEntry(e: ThemeElement): TRSColor {
    match e
    case Background => B.White
    case ContentBackground => Blend(B.Ground, B.White, 0.8)
    case SecondaryContentBackground => Blend(B.Ground, B.White, 0.7)
    case HighlightedContentBackground => WithOpacity(B.Accent, 0.5)
    case SidebarBackground => WithOpacity(Blend(B.Ground, B.White, 0.1), 0.3)
    case Headline => B.Primary
    case Text => B.Text
    case SecondaryText => B.Secondary
    case Accent => B.Accent
    case Shadow => WithOpacity(Blend(B.Text, B.Ground), 0.1)
    case Error => WithOpacity(B.Red, 0.8)
    case Warning => WithOpacity(B.Yellow, 0.8)
    case Success => WithOpacity(B.Green, 0.8)
    case UiElement => WithOpacity(B.Text, 0.3)
    case Separator => WithOpacity(B.Accent, 0.5)
    case Clear => B.None
  }

  /** The entries of the built-in "Dark" theme's dictionary, one per role. */
  function DarkEntry(e: ThemeElement): TRSColor {
    match e
    case Background => B.Text
    case ContentBackground => Blend(B.Text, B.Ground, 0.06)
    case SecondaryContentBackground => Blend(B.Text, B.Ground, 0.04)
    case HighlightedContentBackground => WithOpacity(B.Accent, 0.3)
    case SidebarBackground => WithOpacity(Blend(B.Text, B.Ground, 0.08), 0.3)
    case Headline => B.White
    case Text => B.Ground
    case SecondaryText => B.Secondary
    case Accent => B.Accent
    case Shadow => WithOpacity(B.Primary, 0.2)
    case Error => WithOpacity(B.Red, 0.8)
    case Warning => WithOpacity(B.Yellow, 0.8)
    case Success => WithOpacity(B.Green, 0.8)
    case UiElement => WithOpacity(B.Ground, 0.3)
    case Separator => WithOpacity(B.Primary, 0.5)
    case Clear => B.None
  }

  /** `Theme.light` */
  const Light: Theme := Theme("Light", map e | e in AllCases :: LightEntry(e))

  /** `Theme.dark` */
  const Dark: Theme := Theme("Dark", map e | e in AllCases :: DarkEntry(e))

  /** Both built-in themes map all sixteen roles, so their lookups never reach the fallback. */
  lemma BuiltInThemesComplete()
    ensures Complete(Light) && Complete(Dark)
    ensures Light.name == "Light" && Dark.name == "Dark"
  {
    AllCasesExactlyOnce();
  }

  /** A lookup in a built-in theme answers the theme's own entry for that role. */
  lemma BuiltInLookup(e: ThemeElement)
    ensures ColorFor(Light, e) == LightEntry(e)
    ensures ColorFor(Dark, e) == DarkEntry(e)
  {
    AllCasesExactlyOnce();
    assert e in AllCases;
  }

  /** `error`, `warning` and `success` are red, yellow and green at 80% opacity in both themes. */
  lemma StatusColorsAgree()
    ensures LightEntry(Error) == DarkEntry(Error) == WithOpacity(B.Red, 0.8)
    ensures LightEntry(Warning) == DarkEntry(Warning) == WithOpacity(B.Yellow, 0.8)
    ensures LightEntry(Success) == DarkEntry(Success) == WithOpacity(B.Green, 0.8)
  {
  }

  /** `accent`, `secondaryText` and `clear` do not depend on the theme. */
  lemma SharedRoles(e: ThemeElement)
    requires e == Accent || e == SecondaryText || e == Clear
    ensures LightEntry(e) == DarkEntry(e)
  {
  }

  /**
   * The sidebar background is a blend made 30% opaque, in both themes; the
   * blend is named after its two colours.
   */
  lemma SidebarIsTranslucent()
    ensures ColorFor(Light, SidebarBackground).opacity == 0.3
    ensures ColorFor(Dark, SidebarBackground).opacity == 0.3
    ensures ColorFor(Light, SidebarBackground).name == B.Ground.name + " x " + B.White.name
    ensures ColorFor(Dark, SidebarBackground).name == B.Text.name + " x " + B.Ground.name
  {
    BuiltInLookup(SidebarBackground);
  }
}
