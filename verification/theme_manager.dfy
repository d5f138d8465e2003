/**
 * `ThemeManager` of the current generation: the one current theme, and the
 * switch, toggle and system-appearance transitions on it. The host's
 * appearance queries are parameters; animation and observation are not
 * modelled.
 */
module ThemeManagers {
  import opened Colors
  import opened ThemeElements
  import opened Themes
  import B = BaseColors

  /** The host's light/dark signal. */
  datatype ColorScheme = LightScheme | DarkScheme

  datatype ThemeManager = ThemeManager(currentTheme: Theme)

  /** The built-in theme that answers a scheme. */
  function ThemeFor(s: ColorScheme): Theme {
    match s
    case LightScheme => Light
    case DarkScheme => Dark
  }

  /** The name a theme must carry to count as matching a scheme. */
  function SchemeName(s: ColorScheme): string {
    match s
    case LightScheme => "Light"
    case DarkScheme => "Dark"
  }

  /** `init(theme:)`: the given theme becomes current. */
  function InitWith(theme: Theme): (m: ThemeManager)
    ensures m.currentTheme == theme
    ensures forall e :: ColorFor(m, e) == Themes.ColorFor(theme, e)
  {
    ThemeManager(theme)
  }

  /**
   * The macOS branch of the parameterless `init()`: dark exactly when the
   * appearance API is available and the effective appearance best matches
   * dark aqua, light otherwise.
   */
  function SystemScheme(appearanceApiAvailable: bool, bestMatchIsDarkAqua: bool): (s: ColorScheme)
    ensures s == DarkScheme <==> appearanceApiAvailable && bestMatchIsDarkAqua
  {
    if appearanceApiAvailable && bestMatchIsDarkAqua then DarkScheme else LightScheme
  }

  /** The parameterless `init()`, given the scheme it detected. */
  function InitFromSystem(s: ColorScheme): (m: ThemeManager)
    ensures m.currentTheme == Dark <==> s == DarkScheme
    ensures m.currentTheme == Light <==> s == LightScheme
    ensures m.currentTheme.name == SchemeName(s)
  {
    ThemeManager(if s == DarkScheme then Dark else Light)
  }

  /** `color(for:)`: answered by the current theme, so never the fallback while a built-in theme is current. */
  function ColorFor(m: ThemeManager, e: ThemeElement): (c: TRSColor)
    ensures e in m.currentTheme.colors ==> c == m.currentTheme.colors[e]
    ensures e !in m.currentTheme.colors ==> c == B.White
    ensures m.currentTheme == Light ==> c == LightEntry(e)
    ensures m.currentTheme == Dark ==> c == DarkEntry(e)
  {
    BuiltInLookup(e);
    Themes.ColorFor(m.currentTheme, e)
  }

  /** `switchTheme(to:)`: unconditional. */
  function SwitchTheme(m: ThemeManager, theme: Theme): (r: ThemeManager)
    ensures r.currentTheme == theme
    ensures forall e :: ColorFor(r, e) == Themes.ColorFor(theme, e)
  {
    ThemeManager(theme)
  }

  /** `toggleTheme()`: dark when the current name is "Light", light for every other name. */
  function ToggleTheme(m: ThemeManager): (r: ThemeManager)
    ensures r.currentTheme == Light || r.currentTheme == Dark
    ensures r.currentTheme == Dark <==> m.currentTheme.name == "Light"
  {
    ThemeManager(if m.currentTheme.name == "Light" then Dark else Light)
  }

  /**
   * A switch forgets the previous theme, and the toggle after it is decided
   * by the name of the theme switched to.
   */
  lemma SwitchThenToggle(m: ThemeManager, m': ThemeManager, theme: Theme)
    ensures SwitchTheme(m, theme) == SwitchTheme(m', theme)
    ensures ToggleTheme(SwitchTheme(m, theme)).currentTheme == (if theme.name == "Light" then Dark else Light)
  {
  }

  /** Toggling twice from the light theme comes back to it; any theme not named "Light" toggles to light. */
  lemma ToggleRoundTrip(m: ThemeManager)
    ensures m.currentTheme == Light ==> ToggleTheme(ToggleTheme(m)) == m
    ensures m.currentTheme.name != "Light" ==> ToggleTheme(m).currentTheme == Light
  {
  }

  /**
   * `updateForSystemAppearance(_:)`: nothing changes when the current name
   * already matches the scheme; otherwise the built-in theme for the scheme
   * becomes current. Either way the name matches afterwards.
   */
  function UpdateForSystemAppearance(m: ThemeManager, s: ColorScheme): (r: ThemeManager)
    ensures r.currentTheme.name == SchemeName(s)
    ensures m.currentTheme.name == SchemeName(s) ==> r == m
    ensures m.currentTheme.name != SchemeName(s) ==> r.currentTheme == ThemeFor(s)
  {
    match s
    case LightScheme => if m.currentTheme.name != "Light" then SwitchTheme(m, Light) else m
    case DarkScheme => if m.currentTheme.name != "Dark" then SwitchTheme(m, Dark) else m
  }

  /** Applying the same scheme twice is the same as applying it once. */
  lemma UpdateIdempotent(m: ThemeManager, s: ColorScheme)
    ensures UpdateForSystemAppearance(UpdateForSystemAppearance(m, s), s) == UpdateForSystemAppearance(m, s)
  {
  }

  /**
   * The check is by name only: a custom theme called "Light" survives a
   * light update even though its colours are not the built-in ones.
   */
  lemma UpdateKeepsNamesake(colors: map<ThemeElement, TRSColor>)
    ensures UpdateForSystemAppearance(ThemeManager(Theme("Light", colors)), LightScheme).currentTheme.colors == colors
  {
  }
}
