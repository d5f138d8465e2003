/** The older `ThemeManager`: light by default, no system detection at start-up. */
module LegacyThemeManagers {
  import opened Colors
  import opened LegacyThemeElements
  import opened LegacyThemes
  import B = BaseColors

  datatype ColorScheme = LightScheme | DarkScheme

  datatype ThemeManager = ThemeManager(currentTheme: Theme)

  function ThemeFor(s: ColorScheme): Theme {
    match s
    case LightScheme => Light
    case DarkScheme => Dark
  }

  function SchemeName(s: ColorScheme): string {
    match s
    case LightScheme => "Light"
    case DarkScheme => "Dark"
  }

  /** `init(theme: Theme = .light)` */
  function Init(theme: Theme := Light): (m: ThemeManager)
    ensures m.currentTheme == theme
    ensures forall e :: ColorFor(m, e) == LegacyThemes.ColorFor(theme, e)
  {
    ThemeManager(theme)
  }

  /** The default initialiser makes the built-in light theme current. */
  lemma DefaultIsLight()
    ensures Init().currentTheme == Light
    ensures forall e :: ColorFor(Init(), e) == LightEntry(e)
  {
    forall e ensures ColorFor(Init(), e) == LightEntry(e) {
      BuiltInLookup(e);
    }
  }

  /** `color(for:)` delegates to the current theme. */
  function ColorFor(m: ThemeManager, e: ThemeElement): (c: TRSColor)
    ensures e in m.currentTheme.colors ==> c == m.currentTheme.colors[e]
    ensures e !in m.currentTheme.colors ==> c == B.White
  {
    LegacyThemes.ColorFor(m.currentTheme, e)
  }

  /** `switchTheme(to:)`: unconditional. */
  function SwitchTheme(m: ThemeManager, theme: Theme): (r: ThemeManager)
    ensures r.currentTheme == theme
    ensures forall e :: ColorFor(r, e) == LegacyThemes.ColorFor(theme, e)
  {
    ThemeManager(theme)
  }

  /** `toggleTheme()`: dark when the current name is "Light", light otherwise. */
  function ToggleTheme(m: ThemeManager): (r: ThemeManager)
    ensures r.currentTheme == Light || r.currentTheme == Dark
    ensures r.currentTheme == Dark <==> m.currentTheme.name == "Light"
  {
    ThemeManager(if m.currentTheme.name == "Light" then Dark else Light)
  }

  /**
   * A switch forgets the previous theme, and the toggle after it is decided
   * by the name of the theme switched to.
   */
  lemma SwitchThenToggle(m: ThemeManager, m': ThemeManager, theme: Theme)
    ensures SwitchTheme(m, theme) == SwitchTheme(m', theme)
    ensures ToggleTheme(SwitchTheme(m, theme)).currentTheme == (if theme.name == "Light" then Dark else Light)
  {
  }

  /** Toggling twice from light returns to light. */
  lemma ToggleRoundTrip(m: ThemeManager)
    ensures m.currentTheme == Light ==> ToggleTheme(ToggleTheme(m)) == m
  {
  }

  /** `updateForSystemAppearance(_:)`: a no-op when the name already matches, else the built-in theme. */
  function UpdateForSystemAppearance(m: ThemeManager, s: ColorScheme): (r: ThemeManager)
    ensures r.currentTheme.name == SchemeName(s)
    ensures m.currentTheme.name == SchemeName(s) ==> r == m
    ensures m.currentTheme.name != SchemeName(s) ==> r.currentTheme == ThemeFor(s)
  {
    match s
    case LightScheme => if m.currentTheme.name != "Light" then SwitchTheme(m, Light) else m
    case DarkScheme => if m.currentTheme.name != "Dark" then SwitchTheme(m, Dark) else m
  }

  lemma UpdateIdempotent(m: ThemeManager, s: ColorScheme)
    ensures UpdateForSystemAppearance(UpdateForSystemAppearance(m, s), s) == UpdateForSystemAppearance(m, s)
  {
  }
}
