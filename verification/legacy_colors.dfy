/**
 * The legacy colour model (`TRSColors.swift` of the `TRSSystem` tree):
 * its own `TRSColor` with RAL codes, the `TRSColors` swatch enum, the
 * scheme-dependent `DynamicTRSColor` roles, and the colour manager's scheme
 * detection. The blend delegates to the host's `NSColor.blended`, which is
 * an abstract function here.
 */
module LegacyColors {
  import opened Wrappers
  import Hex
  import Scale
  import C = Colors

  datatype TRSColor = TRSColor(name: string, ral: string, hex: C.UInt, opacity: real)

  /** The `rgba` tuple computed by the initialiser: each byte over 255, alpha the opacity. */
  function Rgba(c: TRSColor): (rgba: C.RGBA)
    ensures 0.0 <= rgba.red <= 1.0 && 0.0 <= rgba.green <= 1.0 && 0.0 <= rgba.blue <= 1.0
    ensures rgba.alpha == c.opacity
    ensures C.ComponentByte(rgba.red) == C.Red(c.hex)
    ensures C.ComponentByte(rgba.green) == C.Green(c.hex)
    ensures C.ComponentByte(rgba.blue) == C.Blue(c.hex)
  {
    C.Components(C.TRSColor(c.name, c.ral, c.hex, c.opacity))
  }

  /** The hand-written `==`: name, RAL code, hex and opacity. */
  function Equal(a: TRSColor, b: TRSColor): bool {
    a.name == b.name && a.ral == b.ral && a.hex == b.hex && a.opacity == b.opacity
  }

  /**
   * `==` ignores the derived `rgba` and `color`, which is sound: they are
   * computed from the compared fields, so equal colours agree on them too.
   */
  lemma EqualityIgnoresDerivedFields(a: TRSColor, b: TRSColor)
    ensures Equal(a, b) <==> a == b
    ensures Equal(a, b) ==> Rgba(a) == Rgba(b) && HexString(a) == HexString(b)
  {
  }

  /** `opacity(_:)`, whose argument defaults to `BASE_OPACITY`. */
  function Opacity(c: TRSColor, opacity: real := Scale.BASE_OPACITY): (r: TRSColor)
    ensures r.name == c.name && r.ral == c.ral && r.hex == c.hex
    ensures r.opacity == opacity
  {
    TRSColor(c.name, c.ral, c.hex, opacity)
  }

  /** `"#%06X"` of the low 32 bits of `hex`. */
  function HexString(c: TRSColor): (s: string)
    ensures |s| >= 7 && s[0] == '#'
    ensures Hex.AllUpperHexDigits(s[1..])
  {
    "#" + Hex.Format06X(c.hex % 0x1_0000_0000)
  }

  /** Six digits for every 24-bit colour, and they read back as its `hex`. */
  lemma HexStringRoundTrip(c: TRSColor)
    requires c.hex <= 0xFF_FFFF
    ensures |HexString(c)| == 7
    ensures Hex.Parse(HexString(c)[1..]) == Some(c.hex)
  {
    C.HexStringRoundTrip(C.TRSColor(c.name, c.ral, c.hex, c.opacity));
  }

  predicate InUnit(x: real) {
    0.0 <= x <= 1.0
  }

  predicate UnitRGBA(c: C.RGBA) {
    InUnit(c.red) && InUnit(c.green) && InUnit(c.blue) && InUnit(c.alpha)
  }

  /**
   * The host's `NSColor.blended(withFraction:of:)`, as far as this model
   * relies on it: it may answer nil, but for components and a fraction
   * all in [0, 1] it answers a colour whose components are in [0, 1].
   */
  type NSBlendFunction = f: (C.RGBA, real, C.RGBA) -> Option<C.RGBA> |
    forall a, t, b :: UnitRGBA(a) && UnitRGBA(b) && InUnit(t) ==> f(a, t, b).Some? && UnitRGBA(f(a, t, b).value)
    witness (a: C.RGBA, t: real, b: C.RGBA) => Some(C.RGBA(0.0, 0.0, 0.0, 0.0))

  const NSBlend: NSBlendFunction

  /**
   * `UInt(_:)` of a `Double`: truncation toward zero, trapping (`None`)
   * unless the value lies strictly between -1 and 2^64.
   */
  function ToUInt(x: real): (r: Option<C.UInt>)
    ensures r.Some? <==> -1.0 < x < 0x1_0000_0000_0000_0000 as real
    ensures r.Some? && x >= 0.0 ==> r.value as real <= x < r.value as real + 1.0
    ensures r.Some? && x < 0.0 ==> r.value == 0
  {
    if x <= -1.0 || x >= 0x1_0000_0000_0000_0000 as real then Option.None
    else if x < 0.0 then Some(0)
    else Some(x.Floor)
  }

  /** `a << k` on `UInt`: bits shifted past the top are dropped, it never traps. */
  function ShiftLeft(a: C.UInt, factor: nat): C.UInt {
    (a * factor) % 0x1_0000_0000_0000_0000
  }

  /** `a + b` on `UInt`, which traps on overflow. */
  function AddChecked(a: C.UInt, b: C.UInt): (r: Option<C.UInt>)
    ensures r.Some? <==> a + b < 0x1_0000_0000_0000_0000
    ensures r.Some? ==> r.value == a + b
  {
    if a + b < 0x1_0000_0000_0000_0000 then Some(a + b) else Option.None
  }

  /**
   * `blend(with:ratio:)`. `None` stands for the ways the source traps: the
   * host answering nil (force unwrap), a component that does not convert
   * to `UInt`, or an overflowing `+`. The shifts bind tighter than `+`.
   */
  function Blend(a: TRSColor, b: TRSColor, ratio: real := 0.5): (r: Option<TRSColor>)
    ensures r.Some? ==> r.value.name == a.name + " x " + b.name && r.value.ral == "n/a"
  {
    match NSBlend(Rgba(a), ratio, Rgba(b))
    case None => Option.None
    case Some(m) =>
      var red, green, blue := ToUInt(m.red * 255.0), ToUInt(m.green * 255.0), ToUInt(m.blue * 255.0);
      if red.None? || green.None? || blue.None? then Option.None
      else
        var high := AddChecked(ShiftLeft(red.value, 0x1_0000), ShiftLeft(green.value, 0x100));
        if high.None? then Option.None
        else
          var hex := AddChecked(high.value, blue.value);
          if hex.None? then Option.None
          else Some(TRSColor(a.name + " x " + b.name, "n/a", hex.value, m.alpha))
  }

  lemma UnitByte(x: real)
    requires InUnit(x)
    ensures ToUInt(x * 255.0).Some? && ToUInt(x * 255.0).value <= 255
  {
  }

  /**
   * For opacities and a ratio in [0, 1] the blend does not trap, fits in
   * 24 bits and has an opacity in [0, 1].
   */
  lemma BlendDefined(a: TRSColor, b: TRSColor, ratio: real)
    requires InUnit(a.opacity) && InUnit(b.opacity) && InUnit(ratio)
    ensures Blend(a, b, ratio).Some?
    ensures Blend(a, b, ratio).value.hex <= 0xFF_FFFF
    ensures InUnit(Blend(a, b, ratio).value.opacity)
  {
    var m := NSBlend(Rgba(a), ratio, Rgba(b)).value;
    UnitByte(m.red);
    UnitByte(m.green);
    UnitByte(m.blue);
    var r, g := ToUInt(m.red * 255.0).value, ToUInt(m.green * 255.0).value;
    assert ShiftLeft(r, 0x1_0000) == r * 0x1_0000;
    assert ShiftLeft(g, 0x100) == g * 0x100;
  }

  /** A blend of two opaque-range colours, for the tables where it cannot trap. */
  function BlendOf(a: TRSColor, b: TRSColor, ratio: real): (r: TRSColor)
    requires InUnit(a.opacity) && InUnit(b.opacity) && InUnit(ratio)
    ensures Blend(a, b, ratio) == Some(r)
  {
    BlendDefined(a, b, ratio);
    Blend(a, b, ratio).value
  }

  // The palette, with RAL codes.
  const White: TRSColor := TRSColor("WHITE", "n/a", 0xFFFFFF, 1.0)
  const Ground: TRSColor := TRSColor("GROUND", "RAL 9003", 0xE9E9E6, 1.0)
  const Accent: TRSColor := TRSColor("ACCENT", "RAL 9002", 0xD1D0C7, 1.0)
  const Secondary: TRSColor := TRSColor("SECONDARY", "RAL 7044", 0xADABA0, 1.0)
  const Text: TRSColor := TRSColor("TEXT", "RAL 8022", 0x1B1818, 1.0)
  const Primary: TRSColor := TRSColor("PRIMARY", "RAL 9005", 0x0F0F10, 1.0)
  const Red: TRSColor := TRSColor("RED", "RAL 3018", 0xD33847, 1.0)
  const Green: TRSColor := TRSColor("GREEN", "RAL 6011", 0x708C64, 1.0)
  const Blue: TRSColor := TRSColor("BLUE", "RAL 5012", 0x0C6BA7, 1.0)
  const Yellow: TRSColor := TRSColor("YELLOW", "RAL 1021", 0xF3C100, 1.0)
  const NoneColor: TRSColor := TRSColor("NONE", "n/a", 0x000000, 0.0)
  const Shadow: TRSColor := Opacity(Text, 0.1)

  /** The swatch enum `TRSColors`. */
  datatype TRSColors = WhiteSwatch | GroundSwatch | AccentSwatch | SecondarySwatch | TextSwatch
    | PrimarySwatch | RedSwatch | GreenSwatch | BlueSwatch | YellowSwatch | ShadowSwatch

  /** `trsColor`: total over the eleven swatches. */
  function SwatchColor(k: TRSColors): TRSColor {
    match k
    case WhiteSwatch => White
    case GroundSwatch => Ground
    case AccentSwatch => Accent
    case SecondarySwatch => Secondary
    case TextSwatch => Text
    case PrimarySwatch => Primary
    case RedSwatch => Red
    case GreenSwatch => Green
    case BlueSwatch => Blue
    case YellowSwatch => Yellow
    case ShadowSwatch => Shadow
  }

  /** `id`: the colour's name. */
  function SwatchId(k: TRSColors): (id: string)
    ensures id == SwatchColor(k).name
  {
    SwatchColor(k).name
  }

  /**
   * Swatch ids are the colour names, so `shadow` and `text` share the id
   * "TEXT"; every other pair of swatches has distinct ids.
   */
  lemma SwatchIds(a: TRSColors, b: TRSColors)
    ensures SwatchId(ShadowSwatch) == SwatchId(TextSwatch) == "TEXT"
    ensures a != b && SwatchId(a) == SwatchId(b) ==> {a, b} == {TextSwatch, ShadowSwatch}
  {
  }

  /** Every swatch is a 24-bit colour in the unit opacity range. */
  lemma SwatchesWellFormed(k: TRSColors)
    ensures SwatchColor(k).hex <= 0xFF_FFFF && InUnit(SwatchColor(k).opacity)
  {
  }

  /**
   * `blend(with: TRSColors, ratio:)`: the blend with the swatch's colour,
   * trapping exactly where that blend traps.
   */
  function BlendWithSwatch(a: TRSColor, k: TRSColors, ratio: real := 0.5): (r: Option<TRSColor>)
    ensures r.Some? ==> r.value.name == a.name + " x " + SwatchColor(k).name && r.value.ral == "n/a"
    ensures r == Blend(a, SwatchColor(k), ratio)
  {
    Blend(a, SwatchColor(k), ratio)
  }

  /**
   * Every swatch is in the unit opacity range, so blending a colour whose
   * opacity is in [0, 1] with a swatch at a ratio in [0, 1] never traps and
   * gives a 24-bit colour.
   */
  lemma BlendWithSwatchDefined(a: TRSColor, k: TRSColors, ratio: real)
    requires InUnit(a.opacity) && InUnit(ratio)
    ensures BlendWithSwatch(a, k, ratio).Some?
    ensures BlendWithSwatch(a, k, ratio).value.hex <= 0xFF_FFFF
    ensures InUnit(BlendWithSwatch(a, k, ratio).value.opacity)
  {
    SwatchesWellFormed(k);
    BlendDefined(a, SwatchColor(k), ratio);
  }

  /** The scheme the colour manager publishes. */
  datatype ColorScheme = Light | Dark

  /** The semantic roles of `DynamicTRSColor`. */
  datatype DynamicTRSColor = TextRole | HighlightedText | SecondaryText | Headline | Warning | Error
    | ContentBackground | SecondaryContentBackground | HighlightedContentBackground | Separator
    | UiElement | ShadowRole | Clear

  function RawValue(d: DynamicTRSColor): string {
    match d
    case TextRole => "text"
    case HighlightedText => "highlightedText"
    case SecondaryText => "secondaryText"
    case Headline => "headline"
    case Warning => "warning"
    case Error => "error"
    case ContentBackground => "contentBackground"
    case SecondaryContentBackground => "secondaryContentBackground"
    case HighlightedContentBackground => "highlightedContentBackground"
    case Separator => "separator"
    case UiElement => "uiElement"
    case ShadowRole => "shadow"
    case Clear => "clear"
  }

  /** `init?(rawValue:)` */
  function FromRawValue(s: string): (r: Option<DynamicTRSColor>)
    ensures r.Some? ==> RawValue(r.value) == s
  {
    if s == "text" then Some(TextRole)
    else if s == "highlightedText" then Some(HighlightedText)
    else if s == "secondaryText" then Some(SecondaryText)
    else if s == "headline" then Some(Headline)
    else if s == "warning" then Some(Warning)
    else if s == "error" then Some(Error)
    else if s == "contentBackground" then Some(ContentBackground)
    else if s == "secondaryContentBackground" then Some(SecondaryContentBackground)
    else if s == "highlightedContentBackground" then Some(HighlightedContentBackground)
    else if s == "separator" then Some(Separator)
    else if s == "uiElement" then Some(UiElement)
    else if s == "shadow" then Some(ShadowRole)
    else if s == "clear" then Some(Clear)
    else None
  }

  lemma RawValueRoundTrip(d: DynamicTRSColor)
    ensures FromRawValue(RawValue(d)) == Some(d)
  {
  }

  /** `_darkModeColor` */
  function DarkModeColor(d: DynamicTRSColor): TRSColor {
    match d
    case TextRole => Ground
    case HighlightedText => White
    case SecondaryText => Secondary
    case Headline => White
    case Warning => Opacity(Yellow, 0.1)
    case Error => Opacity(Red, 0.1)
    case ContentBackground => Text
    case SecondaryContentBackground => Opacity(Text, 0.8)
    case HighlightedContentBackground => Opacity(Primary, 0.5)
    case Separator => Opacity(Text, 0.1)
    case UiElement => Opacity(Ground, 0.3)
    case ShadowRole => Primary
    case Clear => NoneColor
  }

  /** `_lightModeColor`; the two blends are with the `white` swatch, the second at the default ratio 0.5. */
  function LightModeColor(d: DynamicTRSColor): TRSColor {
    match d
    case TextRole => Text
    case HighlightedText => Primary
    case SecondaryText => Secondary
    case Headline => Primary
    case Warning => Opacity(Yellow)
    case Error => Opacity(Red)
    case ContentBackground => White
    case SecondaryContentBackground => BlendOf(Ground, SwatchColor(WhiteSwatch), 0.8)
    case HighlightedContentBackground => Opacity(Accent, 0.5)
    case Separator => BlendOf(Accent, SwatchColor(WhiteSwatch), 0.5)
    case UiElement => Opacity(Text, 0.3)
    case ShadowRole => Opacity(Text, 0.2)
    case Clear => NoneColor
  }

  /** `trsColor`: the dark table for the dark scheme, the light table otherwise. */
  function DynamicColor(d: DynamicTRSColor, scheme: ColorScheme): (c: TRSColor)
    ensures scheme == Dark ==> c == DarkModeColor(d)
    ensures scheme != Dark ==> c == LightModeColor(d)
  {
    match scheme
    case Dark => DarkModeColor(d)
    case Light => LightModeColor(d)
  }

  /** `secondaryText` is `secondary` and `clear` is `none` whatever the scheme. */
  lemma SchemeIndependentRoles(scheme: ColorScheme)
    ensures DynamicColor(SecondaryText, scheme) == Secondary
    ensures DynamicColor(Clear, scheme) == NoneColor
  {
  }

  /** `_scheme` */
  function SchemeLabel(scheme: ColorScheme): string {
    match scheme
    case Dark => "dark"
    case Light => "light"
  }

  /** `id`: the raw value followed by the scheme label. */
  function DynamicId(d: DynamicTRSColor, scheme: ColorScheme): (id: string)
    ensures |id| == |RawValue(d)| + |SchemeLabel(scheme)|
    ensures id[..|RawValue(d)|] == RawValue(d)
    ensures id[|RawValue(d)|..] == SchemeLabel(scheme)
  {
    RawValue(d) + SchemeLabel(scheme)
  }

  /** `description`: the raw value, then the scheme label in parentheses. */
  function Description(d: DynamicTRSColor, scheme: ColorScheme): (s: string)
    ensures |s| == |RawValue(d)| + |SchemeLabel(scheme)| + 3
    ensures s[..|RawValue(d)|] == RawValue(d)
    ensures s[|RawValue(d)|..|RawValue(d)| + 2] == " ("
    ensures s[|RawValue(d)| + 2..|s| - 1] == SchemeLabel(scheme)
    ensures s[|s| - 1] == ')'
  {
    RawValue(d) + " (" + SchemeLabel(scheme) + ")"
  }

  /**
   * Descriptions tell both the role and the scheme apart: the letter before
   * the closing parenthesis names the scheme, and what precedes the label
   * is the role's raw value.
   */
  lemma DescriptionInjective(a: DynamicTRSColor, s: ColorScheme, b: DynamicTRSColor, t: ColorScheme)
    ensures Description(a, s) == Description(b, t) <==> a == b && s == t
  {
    var x, y := Description(a, s), Description(b, t);
    if x == y {
      assert x[|x| - 2] == (if s == Dark then 'k' else 't');
      assert y[|y| - 2] == (if t == Dark then 'k' else 't');
      assert s == t;
      assert RawValue(a) == x[..|x| - |SchemeLabel(s)| - 3];
      assert RawValue(b) == y[..|y| - |SchemeLabel(t)| - 3];
      RawValueRoundTrip(a);
      RawValueRoundTrip(b);
    }
  }

  /**
   * Ids tell both the role and the scheme apart: the last letter names the
   * scheme, and the rest is the role's raw value.
   */
  lemma DynamicIdInjective(a: DynamicTRSColor, s: ColorScheme, b: DynamicTRSColor, t: ColorScheme)
    ensures DynamicId(a, s) == DynamicId(b, t) <==> a == b && s == t
  {
    var x, y := DynamicId(a, s), DynamicId(b, t);
    if x == y {
      assert x[|x| - 1] == (if s == Dark then 'k' else 't');
      assert y[|y| - 1] == (if t == Dark then 'k' else 't');
      assert s == t;
      assert RawValue(a) == x[..|x| - |SchemeLabel(s)|];
      assert RawValue(b) == y[..|y| - |SchemeLabel(t)|];
      RawValueRoundTrip(a);
      RawValueRoundTrip(b);
    }
  }

  /** `NSAppearance.Name.darkAqua` and `.vibrantDark` */
  const DarkAquaName: string := "NSAppearanceNameDarkAqua"
  const VibrantDarkName: string := "NSAppearanceNameVibrantDark"

  /**
   * `getCurrentColorScheme()`, given the name of the application's
   * effective appearance, or `None` when there is no application object.
   */
  function CurrentColorScheme(appearance: Option<string>): (s: ColorScheme)
    ensures s == Dark <==> appearance == Some(DarkAquaName) || appearance == Some(VibrantDarkName)
  {
    match appearance
    case None => Light
    case Some(name) => if name == DarkAquaName || name == VibrantDarkName then Dark else Light
  }

  /** `TRSColorManager`: the published scheme. */
  datatype ColorManager = ColorManager(colorScheme: ColorScheme)

  /**
   * `init()` and the appearance-changed notification both publish the
   * detected scheme, so after either the manager agrees with the host.
   */
  function Refresh(appearance: Option<string>): (m: ColorManager)
    ensures m.colorScheme == CurrentColorScheme(appearance)
    ensures appearance.None? ==> m.colorScheme == Light
  {
    ColorManager(CurrentColorScheme(appearance))
  }
}
